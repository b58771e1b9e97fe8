/** `Scheduler` of `ratings-history-express/src/services/scheduler.ts`: on
    every trigger it adds one task per agency to the shared queue, each
    wrapping the agency's download in `retryTask`.

    As for the older downloader, `addTask` is the backend queue's of module
    `Tasker`, with its default of one attempt. The trigger itself (the
    `node-schedule` rule) is not modelled: `Trigger` is one firing. */
module LegacyScheduler {
  import opened Wrappers
  import opened Status
  import Tasker
  import LegacyDownloader

  // ---------------------------------------------------------------------
  // retryTask

  /** How `retryTask(task, retries)` ends and how many times it calls the
      task: no call at all when `retries` < 1; otherwise the calls and the
      final error are those the queue's `handleTask` makes and records. */
  function RetryResult(body: Tasker.Body, retries: int): (Outcome<string>, nat) {
    if retries < 1 then (Pass, 0)
    else
      var e := Tasker.Outcome(body, retries, 1);
      (if e.error.None? then Pass else Fail(e.error.value), Tasker.Calls(body, retries, 1))
  }

  /** `retryTask`: calls the task until a call resolves, at most `retries`
      times; after the last failed call its error is thrown again. */
  method RetryTask(body: Tasker.Body, retries: int) returns (r: Outcome<string>, calls: nat)
    ensures (r, calls) == RetryResult(body, retries)
  {
    if retries < 1 {
      return Pass, 0;
    }
    var attempt := 1;
    while true
      invariant 1 <= attempt <= retries
      invariant Tasker.Calls(body, retries, 1) == attempt - 1 + Tasker.Calls(body, retries, attempt)
      invariant Tasker.Outcome(body, retries, 1) == Tasker.Outcome(body, retries, attempt)
      decreases retries - attempt
    {
      match Tasker.Call(body, attempt) {
        case Resolves =>
          return Pass, attempt;
        case Rejects(m) =>
          if attempt == retries {
            return Fail(m), attempt;
          }
      }
      attempt := attempt + 1;
    }
  }

  /** A task that first resolves on call k ≤ retries is called exactly k
      times and `retryTask` resolves. */
  lemma RetryStopsAtFirstSuccess(body: Tasker.Body, retries: int, k: nat)
    requires 1 <= k <= retries
    requires forall i :: 1 <= i < k ==> Tasker.Call(body, i).Rejects?
    requires Tasker.Call(body, k).Resolves?
    ensures RetryResult(body, retries) == (Pass, k)
  {
    Tasker.SucceedsOnCall(body, retries, 1, k);
  }

  /** A task that fails every call is called `retries` times, and the last
      call's error is thrown again. */
  lemma RetryRethrowsLast(body: Tasker.Body, retries: int)
    requires 1 <= retries
    requires forall i :: 1 <= i <= retries ==> Tasker.Call(body, i).Rejects?
    ensures RetryResult(body, retries) == (Fail(Tasker.Call(body, retries).message), retries)
  {
    Tasker.FailsEveryCall(body, retries, 1);
  }

  /** `retryTask` never calls the task more than `retries` times. */
  lemma RetryAtMost(body: Tasker.Body, retries: int)
    ensures RetryResult(body, retries).1 <= if retries < 1 then 0 else retries
    ensures retries < 1 ==> RetryResult(body, retries) == (Pass, 0)
  {
  }

  // ---------------------------------------------------------------------
  // The agency task

  /** What one call of the agency task meets: the urls the agency function
      answers (or what it throws), how the downloads end (the first value
      thrown, if any) and how the processing of the archives ends. */
  datatype Run = Run(answer: Result<seq<string>, LegacyDownloader.Thrown>, download: Outcome<LegacyDownloader.Thrown>,
                     processed: Outcome<LegacyDownloader.Thrown>)

  const ExtractionCompleted := "Downloading and extraction completed!"

  /** The value the agency task's `try` block throws, if any. */
  function Thrown(run: Run): (t: Option<LegacyDownloader.Thrown>)
    ensures run.answer.Failure? ==> t == Some(run.answer.error)
    ensures t.None? <==> run.answer.Success? && run.download.Pass? && run.processed.Pass?
  {
    match run.answer
    case Failure(t) => Some(t)
    case Success(_) =>
      if run.download.Fail? then Some(run.download.error)
      else if run.processed.Fail? then Some(run.processed.error)
      else None
  }

  /** The messages sent before the archives are processed. */
  function Opening(run: Run): (ms: seq<Message>)
    ensures forall m :: m in ms ==> m.kind == Info
  {
    match run.answer
    case Failure(_) => []
    case Success(_) =>
      if run.download.Fail? then [Message(DownloadingZip, Info)]
      else [Message(DownloadingZip, Info), Message(ExtractionCompleted, Info), Message(ParsingData, Info)]
  }

  /** The last message: "Completed!", or the message of a thrown `Error`,
      or nothing for another thrown value. */
  function Closing(run: Run): (ms: seq<Message>)
    ensures Thrown(run).None? ==> ms == [Message(Completed, Exit)]
    ensures Thrown(run).Some? ==> ms == LegacyDownloader.Caught(Thrown(run).value)
  {
    if Thrown(run).None? then [Message(Completed, Exit)] else LegacyDownloader.Caught(Thrown(run).value)
  }

  /** The agency's messages of one call, leaving out the "XBRL files
      successfully processed" message each archive sends while the archives
      are processed concurrently: only informative messages, then at most
      one final message, which is "Completed!" exactly when nothing was
      thrown. */
  function TaskLog(run: Run): (ms: seq<Message>)
    ensures forall i :: 0 <= i < |ms| - 1 ==> ms[i].kind == Info
    ensures Thrown(run).None? <==> ms != [] && ms[|ms| - 1] == Message(Completed, Exit)
    ensures Thrown(run) == Some(LegacyDownloader.OtherValue) ==> forall m :: m in ms ==> m.kind == Info
  {
    Opening(run) + Closing(run)
  }

  /** An `Error` is reported with its own message; anything else thrown
      ends the task silently. */
  lemma ClosingReportsErrors(run: Run)
    ensures Thrown(run) == Some(LegacyDownloader.OtherValue) <==> Closing(run) == []
    ensures forall m :: m in Closing(run) && m.kind == Error ==>
      Thrown(run).Some? && Thrown(run).value == LegacyDownloader.ErrorValue(m.text)
  {
  }

  /** The agency task catches whatever its `try` block throws: as the
      queue and `retryTask` see it, every call resolves. */
  const AgencyTask: Tasker.Body := []

  /** So, whenever `maxRetries` ≥ 1, `runTaskWithRetry` calls it exactly
      once per trigger. */
  lemma RunsOnce(retries: int)
    requires 1 <= retries
    ensures RetryResult(AgencyTask, retries) == (Pass, 1)
  {
    RetryStopsAtFirstSuccess(AgencyTask, retries, 1);
  }

  /** The task added to the queue: one call of `runTaskWithRetry`, which
      throws what `retryTask` throws. */
  function Wrapped(inner: Tasker.Body, retries: int): (b: Tasker.Body)
    ensures |b| == 1
    ensures b[0].Resolves? <==> RetryResult(inner, retries).0.Pass?
  {
    var r := RetryResult(inner, retries).0;
    [if r.Pass? then Tasker.Resolves else Tasker.Rejects(r.error)]
  }

  // ---------------------------------------------------------------------
  // One trigger: `addTask` for every agency, in order

  /** `addTask(name, …)` for each name in turn; the first refusal throws
      out of the `forEach`, so the names after it are not added. */
  function EnqueueStep(s: Tasker.State, limit: nat, names: seq<string>, body: Tasker.Body)
    : (Tasker.State, Outcome<string>)
    decreases |names|
  {
    if names == [] then (s, Pass)
    else
      var (t, r) := Tasker.AddTaskStep(s, limit, Tasker.Job(names[0], body, 1));
      if r.Fail? then (t, r) else EnqueueStep(t, limit, names[1..], body)
  }

  /** Name `i` is refused: it is queued or running, or an earlier name of
      the same trigger is the same. */
  predicate Clash(s: Tasker.State, names: seq<string>, i: nat)
    requires i < |names|
  {
    Tasker.Exists(s, names[i]) || names[i] in names[..i]
  }

  /** The index of the first refused name, or `|names|`. */
  function FirstClash(s: Tasker.State, names: seq<string>, i: nat): (k: nat)
    requires i <= |names|
    ensures i <= k <= |names|
    ensures forall j :: i <= j < k ==> !Clash(s, names, j)
    ensures k < |names| ==> Clash(s, names, k)
    decreases |names| - i
  {
    if i == |names| then i
    else if Clash(s, names, i) then i
    else FirstClash(s, names, i + 1)
  }

  /** Once the first name is added, the later names clash exactly as they
      did, one place earlier. */
  lemma {:induction false} ClashShift(s: Tasker.State, limit: nat, names: seq<string>, body: Tasker.Body, i: nat)
    requires names != [] && !Tasker.Exists(s, names[0])
    requires i <= |names| - 1
    ensures var t := Tasker.AddTaskStep(s, limit, Tasker.Job(names[0], body, 1)).0;
      FirstClash(t, names[1..], i) + 1 == FirstClash(s, names, i + 1)
    decreases |names| - i
  {
    var t := Tasker.AddTaskStep(s, limit, Tasker.Job(names[0], body, 1)).0;
    var rest := names[1..];
    if i < |rest| {
      Tasker.AddTaskExists(s, limit, Tasker.Job(names[0], body, 1), rest[i]);
      assert names[..i + 1] == [names[0]] + rest[..i];
      assert Clash(t, rest, i) <==> Clash(s, names, i + 1);
      if !Clash(t, rest, i) {
        ClashShift(s, limit, names, body, i + 1);
      }
    }
  }

  /** A trigger succeeds exactly when no name clashes, and afterwards
      exactly the names before the first clash have been added (queued or
      started), besides the tasks already there. */
  lemma {:induction false} EnqueueAdds(s: Tasker.State, limit: nat, names: seq<string>, body: Tasker.Body)
    ensures var (t, r) := EnqueueStep(s, limit, names, body);
      (r == Pass <==> FirstClash(s, names, 0) == |names|) &&
      (r.Fail? ==> r == Fail(Tasker.DuplicateMessage)) &&
      forall x :: Tasker.Exists(t, x) <==> Tasker.Exists(s, x) || x in names[..FirstClash(s, names, 0)]
    decreases |names|
  {
    if names != [] {
      var job := Tasker.Job(names[0], body, 1);
      var (t, r) := Tasker.AddTaskStep(s, limit, job);
      if !Tasker.Exists(s, names[0]) {
        assert !Clash(s, names, 0);
        forall x ensures Tasker.Exists(t, x) <==> Tasker.Exists(s, x) || x == names[0] {
          Tasker.AddTaskExists(s, limit, job, x);
        }
        EnqueueAdds(t, limit, names[1..], body);
        ClashShift(s, limit, names, body, 0);
        var k := FirstClash(s, names, 0);
        assert k == FirstClash(s, names, 1);
        assert names[..k] == [names[0]] + names[1..][..k - 1];
      } else {
        assert Clash(s, names, 0);
      }
    }
  }

  class Scheduler {
    const tasks: seq<string>
    const maxRetries: int
    const scheduleRule: string

    /** The agency names (the keys of `tasks`), the rule and the retries
        are fixed once and for all. */
    constructor(taskNames: seq<string>, rule: string, retries: int)
      ensures tasks == taskNames && scheduleRule == rule && maxRetries == retries
    {
      tasks := taskNames;
      scheduleRule := rule;
      maxRetries := retries;
    }

    /** `runTaskWithRetry` */
    method RunTaskWithRetry(body: Tasker.Body) returns (r: Outcome<string>, calls: nat)
      ensures (r, calls) == RetryResult(body, maxRetries)
    {
      r, calls := RetryTask(body, maxRetries);
    }

    /** One firing of the schedule: `addTask(agencyName, wrapper)` for each
        key of `tasks`, in order, until one is refused. */
    method Trigger(tasker: Tasker.Tasker) returns (r: Outcome<string>)
      modifies tasker
      ensures tasker.Snapshot() == EnqueueStep(old(tasker.Snapshot()), tasker.limit, tasks, Wrapped(AgencyTask, maxRetries)).0
      ensures r == EnqueueStep(old(tasker.Snapshot()), tasker.limit, tasks, Wrapped(AgencyTask, maxRetries)).1
    {
      var body := Wrapped(AgencyTask, maxRetries);
      ghost var goal := EnqueueStep(tasker.Snapshot(), tasker.limit, tasks, body);
      var i := 0;
      r := Pass;
      while i < |tasks|
        invariant i <= |tasks| && r == Pass
        invariant goal == EnqueueStep(tasker.Snapshot(), tasker.limit, tasks[i..], body)
      {
        assert tasks[i..][1..] == tasks[i + 1..];
        r := tasker.AddTask(tasks[i], body, 1);
        if r.Fail? {
          return;
        }
        i := i + 1;
      }
    }
  }
}
