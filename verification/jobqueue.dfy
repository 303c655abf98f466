/**
 * The per-user job queues and the registry of their workers. A worker drains
 * its user's queue front-first, one job at a time, and on finding it empty
 * removes both the queue and its own registry entry. Each step is atomic: in
 * the source nothing suspends between the emptiness test and the removal.
 */
module JobQueue {
  import opened Wrappers
  import opened Ledger
  import opened Admission

  /** A registered worker task: still running, or done (`Task.done()`), e.g. after an exception. */
  datatype Worker = Running | Finished

  datatype Registry = Registry(queues: map<UserId, seq<Job>>, workers: map<UserId, Worker>)

  /** The registry at start-up: no queue and no worker. */
  const Empty: Registry := Registry(map[], map[])

  /** Every running worker has its queue, and every queue has a worker entry. */
  predicate Valid(r: Registry) {
    && (forall u :: u in r.workers && r.workers[u] == Running ==> u in r.queues)
    && (forall u :: u in r.queues ==> u in r.workers)
  }

  /** The jobs waiting for `uid`, oldest first. */
  function Pending(r: Registry, uid: UserId): seq<Job> {
    if uid in r.queues then r.queues[uid] else []
  }

  /** The registry outside `uid` is the same. */
  ghost predicate SameOtherUsers(r: Registry, r': Registry, uid: UserId) {
    && (forall u :: u != uid ==> (u in r'.queues <==> u in r.queues) && (u in r.queues ==> r'.queues[u] == r.queues[u]))
    && (forall u :: u != uid ==> (u in r'.workers <==> u in r.workers) && (u in r.workers ==> r'.workers[u] == r.workers[u]))
  }

  /**
   * `enqueue_user_conversion`: create the queue if needed, append the job, and
   * start a worker unless one is registered and still running. The flag says
   * whether a worker was started.
   */
  function Enqueue(r: Registry, uid: UserId, job: Job): (res: (Registry, bool))
    requires Valid(r)
    ensures Valid(res.0)
    ensures Pending(res.0, uid) == Pending(r, uid) + [job]
    ensures res.0.workers[uid] == Running
    ensures res.1 <==> uid !in r.workers || r.workers[uid] == Finished
    ensures SameOtherUsers(r, res.0, uid)
  {
    var r1 := r.(queues := r.queues[uid := Pending(r, uid) + [job]]);
    if uid !in r.workers || r.workers[uid] == Finished then (r1.(workers := r1.workers[uid := Running]), true)
    else (r1, false)
  }

  /**
   * One turn of `user_queue_worker`'s loop: take the front job, or, on an
   * empty queue, deregister the worker and drop the queue.
   */
  function Take(r: Registry, uid: UserId): (res: (Registry, Option<Job>))
    requires Valid(r) && uid in r.workers && r.workers[uid] == Running
    ensures Valid(res.0)
    ensures |Pending(r, uid)| > 0 ==>
      && res.1 == Some(Pending(r, uid)[0])
      && Pending(res.0, uid) == Pending(r, uid)[1..]
      && res.0.workers == r.workers
    ensures |Pending(r, uid)| == 0 ==>
      && res.1 == None
      && uid !in res.0.queues && uid !in res.0.workers
    ensures SameOtherUsers(r, res.0, uid)
  {
    var q := r.queues[uid];
    if |q| > 0 then (r.(queues := r.queues[uid := q[1..]]), Some(q[0]))
    else (Registry(r.queues - {uid}, r.workers - {uid}), None)
  }

  /** A worker that dies from an exception stays registered as done; its queue stays. */
  function Crash(r: Registry, uid: UserId): (r': Registry)
    requires Valid(r) && uid in r.workers && r.workers[uid] == Running
    ensures Valid(r')
    ensures Pending(r', uid) == Pending(r, uid) && uid in r'.workers && r'.workers[uid] == Finished
    ensures SameOtherUsers(r, r', uid)
  {
    r.(workers := r.workers[uid := Finished])
  }

  /**
   * A worker left alone runs to completion: the jobs it takes, in order, and
   * the registry it leaves behind.
   */
  function Drain(r: Registry, uid: UserId): (res: (Registry, seq<Job>))
    requires Valid(r) && uid in r.workers && r.workers[uid] == Running
    ensures Valid(res.0)
    ensures res.1 == Pending(r, uid)
    ensures uid !in res.0.queues && uid !in res.0.workers
    ensures SameOtherUsers(r, res.0, uid)
    decreases |Pending(r, uid)|
  {
    var (r1, next) := Take(r, uid);
    match next
    case None => (r1, [])
    case Some(job) =>
      var (r2, rest) := Drain(r1, uid);
      (r2, [job] + rest)
  }

  /**
   * From start-up, a user's first job creates their queue and starts their
   * worker, which then takes exactly that job.
   */
  lemma FirstJobStartsWorker(uid: UserId, job: Job)
    ensures Valid(Empty)
    ensures var (r1, started) := Enqueue(Empty, uid, job);
      && started && Pending(r1, uid) == [job]
      && Drain(r1, uid).1 == [job]
  {
  }

  /** First in, first out: a drain after an enqueue takes the earlier jobs, then the new one. */
  lemma EnqueueThenDrain(r: Registry, uid: UserId, job: Job)
    requires Valid(r)
    ensures var (r1, _) := Enqueue(r, uid, job);
      Drain(r1, uid).1 == Pending(r, uid) + [job]
  {
  }

  /** An enqueue behind a non-empty queue does not change which job the worker takes next. */
  lemma EnqueueKeepsFront(r: Registry, uid: UserId, job: Job)
    requires Valid(r) && uid in r.workers && r.workers[uid] == Running && |Pending(r, uid)| > 0
    ensures Take(Enqueue(r, uid, job).0, uid).1 == Take(r, uid).1
  {
  }

  /** No job is stranded: after an enqueue the job sits in a queue with a running worker, even after a crash. */
  lemma EnqueueAfterCrashRestarts(r: Registry, uid: UserId, job: Job)
    requires Valid(r) && uid in r.workers && r.workers[uid] == Running
    ensures var (r1, started) := Enqueue(Crash(r, uid), uid, job);
      && started && r1.workers[uid] == Running
      && Pending(r1, uid) == Pending(r, uid) + [job]
  {
  }
}
