/** The task queue of `backend-node/src/services/tasker.ts`.

    A task body is an oracle: the outcome of each of its calls, in order.
    Each `await` is a step boundary: `AddTask` and `CancelTask` run between
    steps, and `Settle` is the resumption of the one pending `await`: either
    a call of the task body (`Attempting`), or `handleTask` itself once it
    has returned (`Finishing`). Everything between two `await`s is one
    atomic step. The steps are first defined as functions on a `State`
    value, and the `Tasker` class implements them on its fields. */
module Tasker {
  import opened Wrappers

  /** What one call of a task body does. */
  datatype Attempt = Resolves | Rejects(message: string)

  /** The outcomes of a task body's calls; a call past the end resolves. */
  type Body = seq<Attempt>

  /** The outcome of call `k` (counted from 1). */
  function Call(body: Body, k: nat): Attempt {
    if 1 <= k <= |body| then body[k - 1] else Resolves
  }

  /** A queued task: `taskQueue.set(id, {task, retries})`. */
  datatype Job = Job(id: string, body: Body, retries: int)

  /** `report[id] = {attempts, error}`, the error `null` when the last
      attempt resolved. */
  datatype Entry = Entry(attempts: int, error: Option<string>)

  type Report = map<string, Entry>

  /** The pending `await`, if any. */
  datatype Phase =
    | Idle                                 // no `processQueue` loop is running
    | Attempting(job: Job, attempt: nat)   // awaiting call `attempt` of the job's body
    | Finishing(id: string)                // awaiting the return of `handleTask`

  const DuplicateMessage := "Task with this ID already exists!"
  const NotQueuedMessage := "No queued task with this id"

  /** The fields of a tasker, with the reports it has emitted and the ids of
      the task bodies it has called, in order. */
  datatype State = State(
    queue: seq<Job>,
    running: set<string>,
    processing: bool,
    phase: Phase,
    report: Report,
    emitted: seq<Report>,
    calls: seq<string>)

  const Initial := State([], {}, false, Idle, map[], [], [])

  /** The ids of the queue, in insertion order. */
  function Ids(q: seq<Job>): (ids: seq<string>)
    ensures |ids| == |q|
    ensures forall i :: 0 <= i < |q| ==> ids[i] == q[i].id
  {
    seq(|q|, i requires 0 <= i < |q| => q[i].id)
  }

  /** No id is queued twice. */
  predicate Distinct(ids: seq<string>) {
    forall i, j :: 0 <= i < j < |ids| ==> ids[i] != ids[j]
  }

  /** `taskQueue.delete(id)`: the queue without the entry for `id`, the
      others in their order. */
  function Remove(q: seq<Job>, id: string): (r: seq<Job>)
    ensures forall x :: x in Ids(r) <==> x in Ids(q) && x != id
    ensures id !in Ids(q) ==> r == q
  {
    if q == [] then []
    else
      var rest := Remove(q[1..], id);
      RemoveCons(q, id, rest);
      if q[0].id == id then rest else [q[0]] + rest
  }

  /** What the first entry of the queue adds to the removal from the rest. */
  lemma RemoveCons(q: seq<Job>, id: string, rest: seq<Job>)
    requires q != []
    requires forall x :: x in Ids(rest) <==> x in Ids(q[1..]) && x != id
    requires id !in Ids(q[1..]) ==> rest == q[1..]
    ensures q[0].id == id ==> forall x :: x in Ids(rest) <==> x in Ids(q) && x != id
    ensures q[0].id == id ==> id in Ids(q)
    ensures q[0].id != id ==> forall x :: x in Ids([q[0]] + rest) <==> x in Ids(q) && x != id
    ensures q[0].id != id && id !in Ids(q) ==> [q[0]] + rest == q
  {
    assert Ids(q) == [q[0].id] + Ids(q[1..]);
    assert Ids([q[0]] + rest) == [q[0].id] + Ids(rest);
    if id !in Ids(q) {
      assert id !in Ids(q[1..]);
      assert [q[0]] + q[1..] == q;
    }
  }

  /** Removing from a queue without repeated ids removes one entry. */
  lemma {:induction false} RemoveDistinct(q: seq<Job>, id: string)
    requires Distinct(Ids(q))
    ensures Distinct(Ids(Remove(q, id)))
    ensures |Remove(q, id)| == |q| - (if id in Ids(q) then 1 else 0)
  {
    if q != [] {
      DistinctTail(q);
      RemoveDistinct(q[1..], id);
      RemoveStep(q, id);
    }
  }

  /** One step of the removal, given its effect on the rest of the queue. */
  lemma RemoveStep(q: seq<Job>, id: string)
    requires q != [] && Ids(q) == [q[0].id] + Ids(q[1..])
    requires Distinct(Ids(q[1..])) && q[0].id !in Ids(q[1..])
    requires Distinct(Ids(Remove(q[1..], id)))
    requires |Remove(q[1..], id)| == |q| - 1 - (if id in Ids(q[1..]) then 1 else 0)
    ensures Distinct(Ids(Remove(q, id)))
    ensures |Remove(q, id)| == |q| - (if id in Ids(q) then 1 else 0)
  {
    var rest := Remove(q[1..], id);
    if q[0].id != id {
      assert Remove(q, id) == [q[0]] + rest;
      assert Ids([q[0]] + rest) == [q[0].id] + Ids(rest);
      DistinctCons(q[0].id, Ids(rest));
    }
  }

  /** The rest of a queue without repeated ids has none either, and not
      the first id. */
  lemma DistinctTail(q: seq<Job>)
    requires q != [] && Distinct(Ids(q))
    ensures Ids(q) == [q[0].id] + Ids(q[1..])
    ensures Distinct(Ids(q[1..])) && q[0].id !in Ids(q[1..])
  {
    var ids := Ids(q[1..]);
    assert Ids(q) == [q[0].id] + ids;
    forall i, j | 0 <= i < j < |ids| ensures ids[i] != ids[j] {
      assert ids[i] == Ids(q)[i + 1] && ids[j] == Ids(q)[j + 1];
    }
  }

  lemma DistinctCons(x: string, ids: seq<string>)
    requires x !in ids && Distinct(ids)
    ensures Distinct([x] + ids)
  {
    var xs := [x] + ids;
    forall i, j | 0 <= i < j < |xs| ensures xs[i] != xs[j] {
      if i == 0 {
        assert xs[j] == ids[j - 1];
      } else {
        assert xs[i] == ids[i - 1] && xs[j] == ids[j - 1];
      }
    }
  }

  /** On a queue without repeated ids, removing the id at position `k`
      leaves the entries before it and after it, in their order. */
  lemma RemoveKeepsOrder(q: seq<Job>, id: string, k: nat)
    requires Distinct(Ids(q)) && k < |q| && q[k].id == id
    ensures Remove(q, id) == q[..k] + q[k + 1..]
  {
    forall i | 0 <= i < k ensures q[i].id != id {
      assert Ids(q)[i] != Ids(q)[k];
    }
    RemovePrefix(q, id, k);
    var after := q[k + 1..];
    assert id !in Ids(after) by {
      forall j | 0 <= j < |after| ensures Ids(after)[j] != id {
        assert Ids(q)[k] != Ids(q)[k + 1 + j];
      }
    }
    RemoveHead(q[k..], id, after);
  }

  /** Entries in front of the first one with `id` stay in front, in their
      order. */
  lemma {:induction false} RemovePrefix(q: seq<Job>, id: string, k: nat)
    requires k <= |q| && forall i :: 0 <= i < k ==> q[i].id != id
    ensures Remove(q, id) == q[..k] + Remove(q[k..], id)
  {
    if k == 0 {
      assert q[k..] == q;
    } else {
      var tail, rest := q[1..], Remove(q[k..], id);
      assert tail[k - 1..] == q[k..];
      RemovePrefix(tail, id, k - 1);
      assert q[0].id != id;
      RemoveHead(q, id, tail[..k - 1] + rest);
      Regroup(q, k, rest);
    }
  }

  /** The first entry and the next `k - 1` are the first `k`. */
  lemma Regroup(q: seq<Job>, k: nat, rest: seq<Job>)
    requires 0 < k <= |q|
    ensures [q[0]] + (q[1..][..k - 1] + rest) == q[..k] + rest
  {
    assert q[..k] == [q[0]] + q[1..][..k - 1];
  }

  /** The removal from a non-empty queue, given the removal from its rest. */
  lemma RemoveHead(q: seq<Job>, id: string, rest: seq<Job>)
    requires q != [] && Remove(q[1..], id) == rest
    ensures q[0].id == id ==> Remove(q, id) == rest
    ensures q[0].id != id ==> Remove(q, id) == [q[0]] + rest
  {
  }

  // ---------------------------------------------------------------------
  // The steps

  /** `taskQueue.get(id) || runningTasks.has(id)` */
  predicate Exists(s: State, id: string) {
    id in Ids(s.queue) || id in s.running
  }

  /** The head of the `processQueue` loop: start the oldest queued task if
      fewer than `limit` are running (its first call, or straight to the end
      of `handleTask` when `retries` < 1), else leave the loop. */
  function BeginStep(s: State, limit: nat): State {
    if s.queue != [] && |s.running| < limit then
      var job := s.queue[0];
      var s' := s.(queue := s.queue[1..], running := s.running + {job.id});
      if 1 <= job.retries then s'.(phase := Attempting(job, 1), calls := s.calls + [job.id])
      else s'.(phase := Finishing(job.id))
    else
      s.(processing := false, phase := Idle)
  }

  /** `processQueue` up to its first `await`: nothing when a loop is
      already running or the queue is empty. */
  function ProcessQueueStep(s: State, limit: nat): State {
    if s.processing || s.queue == [] then s
    else BeginStep(s.(processing := true), limit)
  }

  /** `addTask` */
  function AddTaskStep(s: State, limit: nat, job: Job): (r: (State, Outcome<string>))
    ensures r.0.report == s.report && r.0.emitted == s.emitted
    ensures r.0.calls == s.calls || (|r.0.calls| == |s.calls| + 1 && r.0.calls[..|s.calls|] == s.calls)
  {
    if Exists(s, job.id) then (s, Fail(DuplicateMessage))
    else (ProcessQueueStep(s.(queue := s.queue + [job]), limit), Pass)
  }

  /** Whether `addTask` starts the job it adds: no loop is running, nothing
      else is queued, the limit lets a task run and the job has an attempt.
      The body's first call then runs inside `addTask`, up to its first
      `await`. */
  predicate StartsNow(s: State, limit: nat, id: string, retries: int) {
    !Exists(s, id) && !s.processing && s.queue == [] && 0 < limit && 1 <= retries
  }

  /** `cancelTask` */
  function CancelTaskStep(s: State, id: string): (r: (State, Outcome<string>))
    ensures r.1.Fail? ==> r.0 == s
    ensures forall x :: x in Ids(r.0.queue) <==> x in Ids(s.queue) && x != id
    ensures r.0.running == s.running && r.0.phase == s.phase
  {
    if id in Ids(s.queue) then (s.(queue := Remove(s.queue, id)), Pass)
    else (s, Fail(NotQueuedMessage))
  }

  /** `shouldEnd`: when nothing is queued or running, emit the report and
      start a fresh one. */
  function ShouldEndStep(s: State): State {
    if s.queue != [] || s.running != {} then s
    else s.(emitted := s.emitted + [s.report], report := map[])
  }

  /** The pending `await` resumes. A settled call records the attempt and
      either calls the body again or returns from `handleTask`; the return
      of `handleTask` runs the `finally` block and the loop head. */
  function SettleStep(s: State, limit: nat): (r: State)
    ensures s.phase.Idle? ==> r == s
    ensures r.calls == s.calls || (|r.calls| == |s.calls| + 1 && r.calls[..|s.calls|] == s.calls)
    ensures r.emitted == s.emitted || (|r.emitted| == |s.emitted| + 1 && r.emitted[..|s.emitted|] == s.emitted)
  {
    match s.phase
    case Idle => s
    case Attempting(job, k) =>
      (match Call(job.body, k)
       case Resolves =>
         s.(report := s.report[job.id := Entry(k, None)], phase := Finishing(job.id))
       case Rejects(m) =>
         var s' := s.(report := s.report[job.id := Entry(k, Some(m))]);
         if k + 1 <= job.retries then s'.(phase := Attempting(job, k + 1), calls := s.calls + [job.id])
         else s'.(phase := Finishing(job.id)))
    case Finishing(id) =>
      BeginStep(ShouldEndStep(s.(running := s.running - {id})), limit)
  }

  /** The id of the task being handled. */
  function Current(p: Phase): string
    requires !p.Idle?
  {
    if p.Attempting? then p.job.id else p.id
  }

  /** What holds between steps: the flag is set exactly while a loop runs;
      the loop handles one task at a time, so at most one id is running;
      no id is both queued and running or queued twice; and nothing waits
      in the queue while no loop runs, unless the limit is 0. */
  predicate Inv(s: State, limit: nat)
    ensures Inv(s, limit) ==> |s.running| <= 1 && |s.running| <= limit
  {
    (s.processing <==> !s.phase.Idle?) &&
    (s.phase.Idle? ==> s.running == {} && (s.queue == [] || limit == 0)) &&
    (!s.phase.Idle? ==> 0 < limit && s.running == {Current(s.phase)} && Current(s.phase) !in Ids(s.queue)) &&
    (s.phase.Attempting? ==> 1 <= s.phase.attempt <= s.phase.job.retries) &&
    Distinct(Ids(s.queue))
  }

  // ---------------------------------------------------------------------
  // Properties of the steps

  lemma InitialInv(limit: nat)
    ensures Inv(Initial, limit)
  {
  }

  /** Starting the oldest task keeps the invariant. */
  lemma BeginInv(s: State, limit: nat)
    requires s.processing && s.running == {}
    requires Distinct(Ids(s.queue))
    ensures Inv(BeginStep(s, limit), limit)
  {
    if s.queue != [] && |s.running| < limit {
      var q := s.queue;
      assert Ids(q) == [q[0].id] + Ids(q[1..]);
    }
  }

  lemma AddTaskInv(s: State, limit: nat, job: Job)
    requires Inv(s, limit)
    ensures Inv(AddTaskStep(s, limit, job).0, limit)
  {
    if !Exists(s, job.id) {
      var q := s.queue + [job];
      assert Ids(q) == Ids(s.queue) + [job.id];
      if !s.processing {
        BeginInv(s.(queue := q, processing := true), limit);
      }
    }
  }

  lemma CancelTaskInv(s: State, limit: nat, id: string)
    requires Inv(s, limit)
    ensures Inv(CancelTaskStep(s, id).0, limit)
  {
    RemoveDistinct(s.queue, id);
  }

  lemma SettleInv(s: State, limit: nat)
    requires Inv(s, limit)
    ensures Inv(SettleStep(s, limit), limit)
  {
    if s.phase.Finishing? {
      var t := ShouldEndStep(s.(running := s.running - {s.phase.id}));
      assert t.running == {};
      BeginInv(t, limit);
    }
  }

  /** A task is accepted exactly when its id is neither queued nor running;
      a rejected task leaves everything as it was, and an accepted one joins
      the end of the queue, or starts at once when no loop was running. */
  lemma AddTaskOutcome(s: State, limit: nat, job: Job)
    requires Inv(s, limit)
    ensures AddTaskStep(s, limit, job).1 == Fail(DuplicateMessage) <==> Exists(s, job.id)
    ensures Exists(s, job.id) ==> AddTaskStep(s, limit, job).0 == s
    ensures !Exists(s, job.id) && s.processing ==>
      AddTaskStep(s, limit, job).0 == s.(queue := s.queue + [job])
    ensures !Exists(s, job.id) && !s.processing && 0 < limit ==>
      var t := AddTaskStep(s, limit, job).0;
      t.queue == [] && t.running == {job.id} && t.processing && Current(t.phase) == job.id
  {
  }

  /** `addTask` makes exactly its own id known: queued or running. */
  lemma AddTaskExists(s: State, limit: nat, job: Job, x: string)
    ensures Exists(AddTaskStep(s, limit, job).0, x) <==> Exists(s, x) || x == job.id
  {
    var q := s.queue + [job];
    assert Ids(q) == Ids(s.queue) + [job.id];
    if !Exists(s, job.id) && !s.processing {
      assert Ids(q) == [q[0].id] + Ids(q[1..]);
      assert x in Ids(q) <==> x in Ids(s.queue) || x == job.id;
    }
  }

  /** Between steps, `addTask` calls a task body exactly when it starts
      the new job at once, and then that job's first call is pending. */
  lemma AddTaskCalls(s: State, limit: nat, job: Job)
    requires Inv(s, limit)
    ensures AddTaskStep(s, limit, job).0.calls == s.calls + (if StartsNow(s, limit, job.id, job.retries) then [job.id] else [])
    ensures StartsNow(s, limit, job.id, job.retries) ==> AddTaskStep(s, limit, job).0.phase == Attempting(job, 1)
  {
    if !Exists(s, job.id) && !s.processing && 0 < limit {
      assert s.queue == [];
      assert (s.queue + [job])[0] == job;
    }
  }

  /** Only a queued task can be cancelled, not the running one; the others
      keep their order. */
  lemma CancelTaskOutcome(s: State, limit: nat, id: string)
    requires Inv(s, limit)
    ensures CancelTaskStep(s, id).1 == Pass <==> id in Ids(s.queue)
    ensures !s.phase.Idle? && id == Current(s.phase) ==> CancelTaskStep(s, id) == (s, Fail(NotQueuedMessage))
    ensures CancelTaskStep(s, id).0 == s.(queue := Remove(s.queue, id))
    ensures forall k :: 0 <= k < |s.queue| && s.queue[k].id == id ==>
      CancelTaskStep(s, id).0.queue == s.queue[..k] + s.queue[k + 1..]
  {
    forall k | 0 <= k < |s.queue| && s.queue[k].id == id
      ensures CancelTaskStep(s, id).0.queue == s.queue[..k] + s.queue[k + 1..]
    {
      assert id in Ids(s.queue) by { assert Ids(s.queue)[k] == id; }
      RemoveKeepsOrder(s.queue, id, k);
    }
  }

  /** Tasks start in insertion order: a step that starts a task starts the
      oldest queued one, which leaves the queue and enters the running set
      in that same step. */
  lemma StartsOldest(s: State, limit: nat)
    requires Inv(s, limit) && s.phase.Finishing?
    requires SettleStep(s, limit).phase != Idle
    ensures s.queue != []
    ensures Current(SettleStep(s, limit).phase) == s.queue[0].id
    ensures SettleStep(s, limit).queue == s.queue[1..]
    ensures SettleStep(s, limit).running == {s.queue[0].id}
  {
  }

  /** Whatever the outcome, the handled id leaves the running set when
      `handleTask` returns. */
  lemma FinishedLeavesRunning(s: State, limit: nat)
    requires Inv(s, limit) && s.phase.Finishing?
    ensures s.phase.id !in SettleStep(s, limit).running
  {
    var t := ShouldEndStep(s.(running := s.running - {s.phase.id}));
    if t.queue != [] && |t.running| < limit {
      assert Ids(t.queue)[0] == t.queue[0].id;
    }
  }

  /** The report is emitted, then reset, exactly when a finished task leaves
      nothing queued or running; no other step emits. */
  lemma DrainEmitsOnce(s: State, limit: nat)
    requires Inv(s, limit)
    ensures s.phase.Finishing? ==>
      SettleStep(s, limit).emitted == s.emitted + (if s.queue == [] then [s.report] else [])
    ensures s.phase.Finishing? && s.queue == [] ==>
      SettleStep(s, limit).report == map[] && SettleStep(s, limit).phase == Idle && !SettleStep(s, limit).processing
    ensures !s.phase.Finishing? ==> SettleStep(s, limit).emitted == s.emitted
    ensures forall job :: AddTaskStep(s, limit, job).0.emitted == s.emitted
    ensures forall id :: CancelTaskStep(s, id).0.emitted == s.emitted
  {
  }

  // ---------------------------------------------------------------------
  // handleTask, one task without interleaving

  /** The number of calls `handleTask` makes from call `k` on. */
  function Calls(body: Body, retries: int, k: nat): (n: nat)
    requires 1 <= k <= retries
    ensures 1 <= n <= retries - k + 1
    decreases retries - k
  {
    if Call(body, k).Resolves? || k == retries then 1 else 1 + Calls(body, retries, k + 1)
  }

  /** The report entry `handleTask` leaves when it makes call `k` on. */
  function Outcome(body: Body, retries: int, k: nat): (e: Entry)
    requires 1 <= k <= retries
    ensures k <= e.attempts <= retries
    decreases retries - k
  {
    match Call(body, k)
    case Resolves => Entry(k, None)
    case Rejects(m) => if k == retries then Entry(k, Some(m)) else Outcome(body, retries, k + 1)
  }

  /** Only the calls of `handleTask`, with no other step in between. */
  function Drive(s: State, limit: nat): State
    decreases if s.phase.Attempting? then s.phase.job.retries - s.phase.attempt + 1 else 0
  {
    if s.phase.Attempting? && s.phase.attempt <= s.phase.job.retries then Drive(SettleStep(s, limit), limit)
    else s
  }

  /** `n` copies of `id`. */
  function Repeat(id: string, n: nat): (r: seq<string>)
    ensures |r| == n && forall i :: 0 <= i < n ==> r[i] == id
  {
    if n == 0 then [] else [id] + Repeat(id, n - 1)
  }

  /** From call `k`, `handleTask` calls the body `Calls` times in all, ends
      with the entry `Outcome`, and changes nothing else. */
  lemma {:induction false} DriveHandles(s: State, limit: nat)
    requires s.phase.Attempting? && 1 <= s.phase.attempt <= s.phase.job.retries
    ensures var job := s.phase.job; var k := s.phase.attempt;
      Drive(s, limit) == s.(
        phase := Finishing(job.id),
        report := s.report[job.id := Outcome(job.body, job.retries, k)],
        calls := s.calls + Repeat(job.id, Calls(job.body, job.retries, k) - 1))
    decreases s.phase.job.retries - s.phase.attempt
  {
    var job := s.phase.job;
    var k := s.phase.attempt;
    if Call(job.body, k).Rejects? && k < job.retries {
      var t := DriveRetry(s, limit);
      DriveHandles(t, limit);
      var m := Calls(job.body, job.retries, k + 1) - 1;
      assert Calls(job.body, job.retries, k) == m + 2;
      assert Outcome(job.body, job.retries, k) == Outcome(job.body, job.retries, k + 1);
      assert t.report[job.id := Outcome(job.body, job.retries, k)] ==
        s.report[job.id := Outcome(job.body, job.retries, k)];
      assert Repeat(job.id, m + 1) == [job.id] + Repeat(job.id, m);
      assert s.calls + Repeat(job.id, m + 1) == (s.calls + [job.id]) + Repeat(job.id, m);
    } else {
      DriveLast(s, limit);
    }
  }

  /** A rejected call with attempts left records the error and goes on
      with the next call. */
  lemma DriveRetry(s: State, limit: nat) returns (t: State)
    requires s.phase.Attempting? && 1 <= s.phase.attempt < s.phase.job.retries
    requires Call(s.phase.job.body, s.phase.attempt).Rejects?
    ensures var job := s.phase.job; var k := s.phase.attempt;
      t == s.(report := s.report[job.id := Entry(k, Some(Call(job.body, k).message))],
              phase := Attempting(job, k + 1), calls := s.calls + [job.id])
    ensures Drive(s, limit) == Drive(t, limit)
  {
    t := SettleStep(s, limit);
  }

  /** A resolved call, or the last one, ends the attempts with its
      outcome. */
  lemma DriveLast(s: State, limit: nat)
    requires s.phase.Attempting? && 1 <= s.phase.attempt <= s.phase.job.retries
    requires Call(s.phase.job.body, s.phase.attempt).Resolves? || s.phase.attempt == s.phase.job.retries
    ensures var job := s.phase.job; var k := s.phase.attempt;
      Drive(s, limit) == s.(
        phase := Finishing(job.id),
        report := s.report[job.id := Outcome(job.body, job.retries, k)],
        calls := s.calls + Repeat(job.id, Calls(job.body, job.retries, k) - 1))
  {
    var t := SettleStep(s, limit);
    assert t.phase == Finishing(s.phase.job.id);
    assert Drive(s, limit) == t;
  }

  /** A body that first resolves on call k ≤ retries is called exactly k
      times and reports `{attempts: k, error: null}`. */
  lemma {:induction false} SucceedsOnCall(body: Body, retries: int, j: nat, k: nat)
    requires 1 <= j <= k <= retries
    requires forall i :: 1 <= i < k ==> Call(body, i).Rejects?
    requires Call(body, k).Resolves?
    ensures Calls(body, retries, j) == k - j + 1
    ensures Outcome(body, retries, j) == Entry(k, None)
    decreases k - j
  {
    if j < k {
      SucceedsOnCall(body, retries, j + 1, k);
    }
  }

  /** A body that rejects every call is called exactly `retries` times and
      reports `retries` attempts with the last call's error message. */
  lemma {:induction false} FailsEveryCall(body: Body, retries: int, j: nat)
    requires 1 <= j <= retries
    requires forall i :: 1 <= i <= retries ==> Call(body, i).Rejects?
    ensures Calls(body, retries, j) == retries - j + 1
    ensures Outcome(body, retries, j) == Entry(retries, Some(Call(body, retries).message))
    decreases retries - j
  {
    if j < retries {
      FailsEveryCall(body, retries, j + 1);
    }
  }

  /** With `retries` < 1 the body is never called and no entry is written:
      the task goes straight to the end of `handleTask`. */
  lemma NoRetriesNoCall(s: State, limit: nat)
    requires Inv(s, limit) && s.phase.Finishing?
    requires s.queue != [] && s.queue[0].retries < 1
    ensures SettleStep(s, limit).phase == Finishing(s.queue[0].id)
    ensures SettleStep(s, limit).calls == s.calls
    ensures SettleStep(s, limit).report == s.report
  {
  }

  // ---------------------------------------------------------------------
  // The class

  class Tasker {
    const limit: nat
    var queue: seq<Job>
    var running: set<string>
    var processing: bool
    var phase: Phase
    var report: Report
    var emitted: seq<Report>
    var calls: seq<string>

    function Snapshot(): State
      reads this
    {
      State(queue, running, processing, phase, report, emitted, calls)
    }

    constructor(concurrencyLimit: nat)
      ensures limit == concurrencyLimit && Snapshot() == Initial
      ensures Inv(Snapshot(), limit)
    {
      limit := concurrencyLimit;
      queue := [];
      running := {};
      processing := false;
      phase := Idle;
      report := map[];
      emitted := [];
      calls := [];
    }

    method AddTask(id: string, body: Body, retries: int) returns (r: Outcome<string>)
      modifies this
      ensures Snapshot() == AddTaskStep(old(Snapshot()), limit, Job(id, body, retries)).0
      ensures r == AddTaskStep(old(Snapshot()), limit, Job(id, body, retries)).1
    {
      if id in Ids(queue) || id in running {
        return Fail(DuplicateMessage);
      }
      queue := queue + [Job(id, body, retries)];
      ProcessQueue();
      r := Pass;
    }

    method CancelTask(id: string) returns (r: Outcome<string>)
      modifies this
      ensures Snapshot() == CancelTaskStep(old(Snapshot()), id).0
      ensures r == CancelTaskStep(old(Snapshot()), id).1
    {
      if id !in Ids(queue) {
        return Fail(NotQueuedMessage);
      }
      queue := Remove(queue, id);
      r := Pass;
    }

    method ProcessQueue()
      modifies this
      ensures Snapshot() == ProcessQueueStep(old(Snapshot()), limit)
    {
      if processing || queue == [] {
        return;
      }
      processing := true;
      Begin();
    }

    method Begin()
      modifies this
      ensures Snapshot() == BeginStep(old(Snapshot()), limit)
    {
      if queue != [] && |running| < limit {
        var job := queue[0];
        queue := queue[1..];
        running := running + {job.id};
        if 1 <= job.retries {
          calls := calls + [job.id];
          phase := Attempting(job, 1);
        } else {
          phase := Finishing(job.id);
        }
      } else {
        processing := false;
        phase := Idle;
      }
    }

    method ShouldEnd()
      modifies this
      ensures Snapshot() == ShouldEndStep(old(Snapshot()))
    {
      if queue != [] || running != {} {
        return;
      }
      emitted := emitted + [report];
      report := map[];
    }

    method Settle()
      modifies this
      ensures Snapshot() == SettleStep(old(Snapshot()), limit)
    {
      match phase {
        case Idle =>
        case Attempting(job, k) =>
          var outcome := Call(job.body, k);
          match outcome {
            case Resolves =>
              report := report[job.id := Entry(k, None)];
              phase := Finishing(job.id);
            case Rejects(m) =>
              report := report[job.id := Entry(k, Some(m))];
              if k + 1 <= job.retries {
                calls := calls + [job.id];
                phase := Attempting(job, k + 1);
              } else {
                phase := Finishing(job.id);
              }
          }
        case Finishing(id) =>
          running := running - {id};
          ShouldEnd();
          Begin();
      }
    }
  }
}
