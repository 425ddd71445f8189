/** The moderation queue: tasks wait in a list, at most `maxConcurrent` run at a time, and a
    failing task is re-queued until it has failed `maxRetries` times. One processing pass and
    each task's outcome are modelled as separate steps. */
module ModerationTasks {
  import opened Common

  datatype TaskStatus = Pending | Processing | Completed | Failed

  /** `ModerationTask` without its function and data, which the queue only passes along. */
  datatype Task = Task(
    id: string, status: TaskStatus, createdAt: int, startedAt: Option<int>,
    completedAt: Option<int>, retries: nat, error: Option<string>)

  /** A new task: pending, created now, never started and never retried. */
  function NewTask(id: string, now: int): (t: Task)
    ensures t.id == id && t.status == Pending && t.createdAt == now && t.retries == 0
    ensures t.startedAt.None? && t.completedAt.None? && t.error.None?
  {
    Task(id, Pending, now, None, None, 0, None)
  }

  /** How many tasks one pass starts: the free slots, capped by the queue length. */
  function Slots(maxConcurrent: int, processing: nat, queued: nat): (n: nat)
    ensures n <= queued
    ensures n > 0 ==> processing + n <= maxConcurrent
    ensures n == (if maxConcurrent - processing > 0 then Min(maxConcurrent - processing, queued) else 0)
  {
    var available := maxConcurrent - processing;
    if available > 0 && queued > 0 then Min(available, queued) else 0
  }

  /** The task after one more failure, and whether it is retried. */
  function AfterFailure(t: Task, err: string, maxRetries: int): (r: (bool, Task))
    ensures r.1.retries == t.retries + 1 && r.1.error == Some(err) && r.1.id == t.id
    ensures r.0 <==> t.retries + 1 < maxRetries
    ensures r.1.status == if r.0 then Pending else Failed
  {
    var t' := t.(retries := t.retries + 1, error := Some(err));
    if t'.retries < maxRetries then (true, t'.(status := Pending)) else (false, t'.(status := Failed))
  }

  /** The task after failing once per error in `errs`, each failure retried while allowed. */
  function FailRepeatedly(t: Task, errs: seq<string>, maxRetries: int): Task
    decreases |errs|
  {
    if errs == [] then t else FailRepeatedly(AfterFailure(t, errs[0], maxRetries).1, errs[1..], maxRetries)
  }

  /** A task that failed k times has k retries, and the k-th failure re-queues it exactly when
      k < maxRetries: so a task runs at most max(maxRetries, 1) times. */
  lemma {:induction false} RetryBound(t: Task, errs: seq<string>, err: string, maxRetries: int)
    ensures FailRepeatedly(t, errs, maxRetries).retries == t.retries + |errs|
    ensures AfterFailure(FailRepeatedly(t, errs, maxRetries), err, maxRetries).0 <==> t.retries + |errs| + 1 < maxRetries
    decreases |errs|
  {
    if errs != [] {
      RetryBound(AfterFailure(t, errs[0], maxRetries).1, errs[1..], err, maxRetries);
    }
  }

  function Ids(ts: seq<Task>): set<string> {
    set t | t in ts :: t.id
  }

  lemma IdsSnoc(ts: seq<Task>, t: Task)
    ensures Ids(ts + [t]) == Ids(ts) + {t.id}
  {
  }

  /** What `get_queue_status` reports. */
  datatype QueueStatus = QueueStatus(pending: nat, processing: nat, completed: nat, failed: nat, running: bool)

  lemma MapUpdateSize<K, V>(m: map<K, V>, k: K, v: V)
    ensures |m[k := v]| <= |m| + 1
    ensures k in m ==> |m[k := v]| == |m|
  {
    assert m[k := v].Keys == m.Keys + {k};
    if k in m {
      assert m.Keys + {k} == m.Keys;
    }
  }

  lemma MapRemoveSize<K, V>(m: map<K, V>, k: K)
    ensures |m - {k}| <= |m|
  {
    assert (m - {k}).Keys <= m.Keys;
    SubsetSize((m - {k}).Keys, m.Keys);
  }

  lemma {:induction false} SubsetSize<T>(a: set<T>, b: set<T>)
    requires a <= b
    ensures |a| <= |b|
    decreases |b|
  {
    if a != {} {
      var x :| x in a;
      SubsetSize(a - {x}, b - {x});
    }
  }

  predicate AllPending(queue: seq<Task>) {
    forall i :: 0 <= i < |queue| ==> queue[i].status == Pending
  }

  /** Every task of `m` is filed under its own id and has status `s`. */
  predicate Filed(m: map<string, Task>, s: TaskStatus) {
    forall k :: k in m ==> m[k].id == k && m[k].status == s
  }

  lemma FiledStore(m: map<string, Task>, t: Task, s: TaskStatus)
    requires Filed(m, s) && t.status == s
    ensures Filed(m[t.id := t], s)
  {
  }

  lemma FiledRemove(m: map<string, Task>, k: string, s: TaskStatus)
    requires Filed(m, s)
    ensures Filed(m - {k}, s) && |m - {k}| <= |m|
  {
    MapRemoveSize(m, k);
  }

  lemma PendingTail(queue: seq<Task>)
    requires AllPending(queue) && queue != []
    ensures AllPending(queue[1..]) && queue[0].status == Pending
  {
    assert forall i :: 0 <= i < |queue| - 1 ==> queue[1..][i] == queue[i + 1];
  }

  lemma PendingSnoc(queue: seq<Task>, t: Task)
    requires AllPending(queue) && t.status == Pending
    ensures AllPending(queue + [t])
  {
  }

  /** A queued task as `_process_queue` starts it: processing, started at `now`. */
  function Begun(t: Task, now: int): Task {
    t.(status := Processing, startedAt := Some(now))
  }

  /** The processing table after the tasks `ts` are started in order at `now`, each filed
      under its id; a later task with an id already in the table replaces the entry, as the
      dictionary assignment does. */
  function StartedAll(p: map<string, Task>, ts: seq<Task>, now: int): map<string, Task>
    decreases |ts|
  {
    if ts == [] then p
    else StartedAll(p, ts[..|ts| - 1], now)[ts[|ts| - 1].id := Begun(ts[|ts| - 1], now)]
  }

  lemma StartedAllSnoc(p: map<string, Task>, ts: seq<Task>, t: Task, now: int)
    ensures StartedAll(p, ts + [t], now) == StartedAll(p, ts, now)[t.id := Begun(t, now)]
  {
    assert (ts + [t])[..|ts|] == ts;
  }

  /** Starting the tasks adds exactly their ids to the table. */
  lemma {:induction false} StartedAllKeys(p: map<string, Task>, ts: seq<Task>, now: int)
    ensures StartedAll(p, ts, now).Keys == p.Keys + Ids(ts)
    decreases |ts|
  {
    if ts != [] {
      var init := ts[..|ts| - 1];
      StartedAllKeys(p, init, now);
      assert ts == init + [ts[|ts| - 1]];
      IdsSnoc(init, ts[|ts| - 1]);
    }
  }

  /** An entry whose id no started task carries keeps its value. */
  lemma {:induction false} StartedAllOutside(p: map<string, Task>, ts: seq<Task>, now: int, k: string)
    requires k in p && forall j :: 0 <= j < |ts| ==> ts[j].id != k
    ensures k in StartedAll(p, ts, now) && StartedAll(p, ts, now)[k] == p[k]
    decreases |ts|
  {
    if ts != [] {
      StartedAllOutside(p, ts[..|ts| - 1], now, k);
    }
  }

  /** A started task that no later task shares an id with is stored processing, started at
      `now`. */
  lemma {:induction false} StartedAllLatest(p: map<string, Task>, ts: seq<Task>, now: int, i: nat)
    requires i < |ts| && forall j :: i < j < |ts| ==> ts[j].id != ts[i].id
    ensures ts[i].id in StartedAll(p, ts, now)
    ensures StartedAll(p, ts, now)[ts[i].id] == Begun(ts[i], now)
    ensures StartedAll(p, ts, now)[ts[i].id].status == Processing
    ensures StartedAll(p, ts, now)[ts[i].id].startedAt == Some(now)
    decreases |ts|
  {
    if i < |ts| - 1 {
      StartedAllLatest(p, ts[..|ts| - 1], now, i);
    }
  }

  /** After `i` steps of a dispatch pass that began with queue `q0` and processing `p0`: the
      first `i` tasks have moved from the queue into processing. */
  ghost predicate Dispatched(q0: seq<Task>, p0: map<string, Task>, now: int, i: nat, started: seq<Task>,
                             queue: seq<Task>, processing: map<string, Task>) {
    && i <= |q0| && started == q0[..i] && queue == q0[i..]
    && processing == StartedAll(p0, started, now)
    && |processing| <= |p0| + i
    && processing.Keys == p0.Keys + Ids(started)
    && AllPending(queue) && Filed(processing, Processing)
  }

  lemma DispatchStep(q0: seq<Task>, p0: map<string, Task>, now: int, i: nat, started: seq<Task>,
                     queue: seq<Task>, processing: map<string, Task>, t: Task,
                     queue': seq<Task>, processing': map<string, Task>)
    requires Dispatched(q0, p0, now, i, started, queue, processing) && i < |q0|
    requires queue != [] && t == queue[0] && queue' == queue[1..]
    requires processing' == processing[t.id := Begun(t, now)]
    requires processing'.Keys == processing.Keys + {t.id} && |processing'| <= |processing| + 1
    requires AllPending(queue') && Filed(processing', Processing)
    ensures Dispatched(q0, p0, now, i + 1, started + [t], queue', processing')
  {
    StartedAllSnoc(p0, started, t, now);
    FrontStep(q0, i, queue, t, queue');
    KeysStep(p0, i, started, t, processing, processing');
  }

  lemma KeysStep(p0: map<string, Task>, i: nat, started: seq<Task>, t: Task,
                 processing: map<string, Task>, processing': map<string, Task>)
    requires processing.Keys == p0.Keys + Ids(started) && |processing| <= |p0| + i
    requires processing'.Keys == processing.Keys + {t.id} && |processing'| <= |processing| + 1
    ensures processing'.Keys == p0.Keys + Ids(started + [t]) && |processing'| <= |p0| + i + 1
  {
    IdsSnoc(started, t);
  }

  lemma FrontStep(q0: seq<Task>, i: nat, queue: seq<Task>, t: Task, queue': seq<Task>)
    requires i < |q0| && queue == q0[i..] && t == queue[0] && queue' == queue[1..]
    ensures q0[..i] + [t] == q0[..i + 1] && queue' == q0[i + 1..]
  {
    PrefixSnoc(q0, i);
  }

  class ModerationQueue {
    const maxConcurrent: int
    const maxRetries: int
    var queue: seq<Task>
    var processing: map<string, Task>
    var completed: map<string, Task>
    var failed: map<string, Task>
    var running: bool

    /** Each collection holds tasks of its own status under their own ids, and never more than
        `maxConcurrent` tasks are processing. */
    predicate Valid()
      reads this
    {
      && |processing| <= Max(maxConcurrent, 0)
      && AllPending(queue)
      && Filed(processing, Processing) && Filed(completed, Completed) && Filed(failed, Failed)
    }

    constructor (maxConcurrent: int, maxRetries: int)
      ensures Valid()
      ensures this.maxConcurrent == maxConcurrent && this.maxRetries == maxRetries
      ensures queue == [] && processing == map[] && completed == map[] && failed == map[] && !running
    {
      this.maxConcurrent := maxConcurrent;
      this.maxRetries := maxRetries;
      queue := [];
      processing := map[];
      completed := map[];
      failed := map[];
      running := false;
    }

    function Status(): (s: QueueStatus)
      reads this
      ensures s.pending == |queue| && s.processing == |processing|
      ensures s.completed == |completed| && s.failed == |failed| && s.running == running
    {
      QueueStatus(|queue|, |processing|, |completed|, |failed|, running)
    }

    method Start()
      modifies this
      requires Valid()
      ensures Valid() && running
      ensures queue == old(queue) && processing == old(processing)
      ensures completed == old(completed) && failed == old(failed)
    {
      if running {
        return;
      }
      running := true;
    }

    method Stop()
      modifies this
      requires Valid()
      ensures Valid() && !running
      ensures queue == old(queue) && processing == old(processing)
      ensures completed == old(completed) && failed == old(failed)
    {
      running := false;
    }

    /** `add_moderation_task`: nothing while stopped; otherwise one new task at the end. */
    method AddTask(id: string, now: int)
      modifies this
      requires Valid()
      ensures Valid()
      ensures !old(running) ==> queue == old(queue)
      ensures old(running) ==> queue == old(queue) + [NewTask(id, now)]
      ensures running == old(running) && processing == old(processing)
      ensures completed == old(completed) && failed == old(failed)
    {
      if !running {
        return;
      }
      PendingSnoc(queue, NewTask(id, now));
      queue := queue + [NewTask(id, now)];
    }

    /** Moves the front task into processing. */
    method StartFront(now: int) returns (t: Task)
      modifies this`queue, this`processing
      requires queue != []
      requires AllPending(queue) && Filed(processing, Processing)
      ensures t == old(queue)[0] && queue == old(queue)[1..]
      ensures processing == old(processing)[t.id := Begun(t, now)]
      ensures processing.Keys == old(processing).Keys + {t.id} && |processing| <= |old(processing)| + 1
      ensures AllPending(queue) && Filed(processing, Processing)
    {
      t := queue[0];
      PendingTail(queue);
      queue := queue[1..];
      MapUpdateSize(processing, t.id, t.(status := Processing, startedAt := Some(now)));
      FiledStore(processing, t.(status := Processing, startedAt := Some(now)), Processing);
      processing := processing[t.id := t.(status := Processing, startedAt := Some(now))];
    }

    /** One pass of `_process_queue`: the first `Slots(…)` queued tasks start processing. */
    method Dispatch(now: int) returns (started: seq<Task>)
      modifies this
      requires Valid()
      ensures Valid()
      ensures var n := if old(running) then Slots(maxConcurrent, |old(processing)|, |old(queue)|) else 0;
        && started == old(queue)[..n]
        && queue == old(queue)[n..]
      ensures processing == StartedAll(old(processing), started, now)
      ensures processing.Keys == old(processing).Keys + Ids(started)
      ensures running == old(running) && completed == old(completed) && failed == old(failed)
    {
      started := [];
      if !running {
        return;
      }
      var n := Slots(maxConcurrent, |processing|, |queue|);
      ghost var p0 := processing;
      started := StartFronts(n, now);
      assert |processing| <= |p0| + n;
    }

    /** The loop of `_process_queue`: the first `n` queued tasks start processing, in order. */
    method StartFronts(n: nat, now: int) returns (started: seq<Task>)
      modifies this`queue, this`processing
      requires n <= |queue| && AllPending(queue) && Filed(processing, Processing)
      ensures Dispatched(old(queue), old(processing), now, n, started, queue, processing)
    {
      started := [];
      ghost var q0 := queue;
      ghost var p0 := processing;
      var i := 0;
      while i < n
        invariant i <= n <= |q0|
        invariant Dispatched(q0, p0, now, i, started, queue, processing)
      {
        ghost var before, p1 := queue, processing;
        var t := StartFront(now);
        DispatchStep(q0, p0, now, i, started, before, p1, t, queue, processing);
        started := started + [t];
        i := i + 1;
      }
    }

    /** A task that ran to completion. */
    method Complete(t: Task, now: int)
      modifies this
      requires Valid()
      ensures Valid()
      ensures completed == old(completed)[t.id := t.(id := t.id, status := Completed, completedAt := Some(now))]
      ensures processing == old(processing) - {t.id}
      ensures queue == old(queue) && failed == old(failed) && running == old(running)
    {
      FiledStore(completed, t.(status := Completed, completedAt := Some(now)), Completed);
      completed := completed[t.id := t.(status := Completed, completedAt := Some(now))];
      FiledRemove(processing, t.id, Processing);
      processing := processing - {t.id};
    }

    /** A task whose function raised: re-queued while it has retries left, failed otherwise. */
    method Fail(t: Task, err: string) returns (retried: bool)
      modifies this
      requires Valid()
      ensures Valid()
      ensures retried == AfterFailure(t, err, maxRetries).0
      ensures retried ==> queue == old(queue) + [AfterFailure(t, err, maxRetries).1] && failed == old(failed)
      ensures !retried ==> failed == old(failed)[t.id := AfterFailure(t, err, maxRetries).1] && queue == old(queue)
      ensures processing == old(processing) - {t.id}
      ensures completed == old(completed) && running == old(running)
    {
      var r := AfterFailure(t, err, maxRetries);
      retried := r.0;
      if retried {
        PendingSnoc(queue, r.1);
        queue := queue + [r.1];
      } else {
        FiledStore(failed, r.1, Failed);
        failed := failed[t.id := r.1];
      }
      FiledRemove(processing, t.id, Processing);
      processing := processing - {t.id};
    }
  }
}
