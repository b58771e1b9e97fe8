/** `Downloader` of `backend-node/src/services/downloader.ts`: the message
    list of every configured agency, and `initiate`/`abort`, which go
    through the shared task queue.

    The events the downloader emits are kept, in order, in `emitted`. The
    agency function's answer, the downloads and the processing of each
    archive are the environment of one call of an agency's task. */
module BackendDownloader {
  import opened Wrappers
  import opened Strings
  import opened Status
  import Tasker

  /** One entry of the answer's `urls`. */
  datatype UrlValue = UrlText(url: string) | NotText

  /** The answer of the agency function: its `error` and `urls` fields. */
  datatype Response = Response(error: Option<string>, urls: Option<seq<UrlValue>>)

  /** What becomes of one downloaded archive: processed and removed, or the
      message of the error processing or removing it throws. */
  datatype FileStep = Processed | ParseFails(message: string) | RemoveFails(message: string)

  /** What one call of an agency's task meets: the answer (or the message
      of the failed request), the downloads (all of them, or the first
      error), and each archive. */
  datatype Environment = Environment(answer: Result<Response, string>, download: Outcome<string>, files: seq<FileStep>)

  const NoAgencyMessage := "No agency with this name"
  const NoUrlsMessage := "No URLs in data returned by function!"
  const NotStringsMessage := "URLs are not strings!"
  const GettingUrls := "Getting download URL(s)..."

  /** The checks on the answer, in order: a non-empty `error`, missing
      `urls`, a url that is not a string. On success, the urls. */
  function Validate(r: Response): (v: Result<seq<string>, string>)
    ensures v.Success? <==>
      (r.error.None? || r.error.value == "") && r.urls.Some? && forall u :: u in r.urls.value ==> u.UrlText?
    ensures v.Success? ==>
      |v.value| == |r.urls.value| && forall i :: 0 <= i < |v.value| ==> r.urls.value[i] == UrlText(v.value[i])
    ensures r.error.Some? && r.error.value != "" ==> v == Failure(r.error.value)
    ensures (r.error.None? || r.error.value == "") && r.urls.None? ==> v == Failure(NoUrlsMessage)
    ensures (r.error.None? || r.error.value == "") && r.urls.Some? && v.Failure? ==> v == Failure(NotStringsMessage)
  {
    if r.error.Some? && r.error.value != "" then Failure(r.error.value)
    else if r.urls.None? then Failure(NoUrlsMessage)
    else if exists u :: u in r.urls.value && u.NotText? then Failure(NotStringsMessage)
    else
      var us := r.urls.value;
      assert forall i :: 0 <= i < |us| ==> us[i] in us;
      Success(seq(|us|, i requires 0 <= i < |us| => us[i].url))
  }

  /** ` (i+1/n)` when there is more than one archive, else nothing. */
  function Counter(i: nat, n: nat): (c: string)
    ensures n <= 1 ==> c == ""
    ensures n > 1 ==> c == " (" + NatText(i + 1) + "/" + NatText(n) + ")"
  {
    if n > 1 then " (" + NatText(i + 1) + "/" + NatText(n) + ")" else ""
  }

  /** What becomes of archive `i`; archives the environment does not list
      are processed. */
  function Step(files: seq<FileStep>, i: nat): FileStep {
    if i < |files| then files[i] else Processed
  }

  /** The messages of archive `i`: the parsing message, then, once it is
      parsed, the removal message. */
  function StepMessages(files: seq<FileStep>, n: nat, i: nat): (ms: seq<Message>)
    ensures 1 <= |ms| <= 2
  {
    var parsing := Message(ParsingData + Counter(i, n), Info);
    if Step(files, i).ParseFails? then [parsing] else [parsing, Message(ZipProcessed, Info)]
  }

  /** The message of the error archive `i` throws, if any. */
  function StepFailure(files: seq<FileStep>, i: nat): Option<string> {
    match Step(files, i)
    case Processed => None
    case ParseFails(e) => Some(e)
    case RemoveFails(e) => Some(e)
  }

  /** The messages of the archive loop from archive `i` on. */
  function FilesMessages(files: seq<FileStep>, n: nat, i: nat): seq<Message>
    requires i <= n
    decreases n - i
  {
    if i == n then []
    else if StepFailure(files, i).Some? then StepMessages(files, n, i)
    else StepMessages(files, n, i) + FilesMessages(files, n, i + 1)
  }

  /** The message of the error that ends the archive loop from archive `i`
      on, if any. */
  function FilesFailure(files: seq<FileStep>, n: nat, i: nat): Option<string>
    requires i <= n
    decreases n - i
  {
    if i == n then None
    else if StepFailure(files, i).Some? then StepFailure(files, i)
    else FilesFailure(files, n, i + 1)
  }

  /** The messages emitted inside the `try` block of one call, after the
      URL request message, and the message of the error it throws, if any. */
  function TryLog(env: Environment): (seq<Message>, Option<string>) {
    match env.answer
    case Failure(e) => ([], Some(e))
    case Success(r) =>
      match Validate(r)
      case Failure(e) => ([], Some(e))
      case Success(urls) =>
        if env.download.Fail? then ([Message(DownloadingZip, Info)], Some(env.download.error))
        else
          ([Message(DownloadingZip, Info), Message(DownloadCompleted, Info)] + FilesMessages(env.files, |urls|, 0),
           FilesFailure(env.files, |urls|, 0))
  }

  /** After `sent` has been emitted for the archives before `i`: while no
      error has ended the loop, the rest of the loop's messages follow;
      once one has, `sent` is the whole log. */
  ghost predicate Done(files: seq<FileStep>, n: nat, i: nat, sent: seq<Message>, failure: Option<string>)
    requires i <= n
  {
    if failure.None? then
      FilesMessages(files, n, 0) == sent + FilesMessages(files, n, i) &&
      FilesFailure(files, n, 0) == FilesFailure(files, n, i)
    else
      FilesMessages(files, n, 0) == sent && FilesFailure(files, n, 0) == failure
  }

  /** One archive more keeps `Done`. */
  lemma DoneStep(files: seq<FileStep>, n: nat, i: nat, sent: seq<Message>)
    requires i < n && Done(files, n, i, sent, None)
    ensures Done(files, n, i + 1, sent + StepMessages(files, n, i), StepFailure(files, i))
  {
    if StepFailure(files, i).None? {
      var ms, rest := StepMessages(files, n, i), FilesMessages(files, n, i + 1);
      assert sent + (ms + rest) == (sent + ms) + rest;
    }
  }

  /** When the loop stops, `sent` is the whole log. */
  lemma DoneEnd(files: seq<FileStep>, n: nat, i: nat, sent: seq<Message>, failure: Option<string>)
    requires i <= n && Done(files, n, i, sent, failure)
    requires i == n || failure.Some?
    ensures FilesMessages(files, n, 0) == sent && FilesFailure(files, n, 0) == failure
  {
    if failure.None? {
      assert sent + [] == sent;
    }
  }

  /** The messages a call emits after its first `await`: the `try` block's,
      then "Completed!" or the caught error. */
  function ResumeLog(env: Environment): seq<Message> {
    TryLog(env).0 + [Closing(TryLog(env).1)]
  }

  /** The messages one call of the task emits, in order, and how the call
      ends: a caught error is emitted and thrown again. */
  function AttemptLog(env: Environment): (seq<Message>, Tasker.Attempt) {
    var failure := TryLog(env).1;
    ([Message(GettingUrls, Info)] + ResumeLog(env),
     if failure.Some? then Tasker.Rejects(failure.value) else Tasker.Resolves)
  }

  /** The last message of a call: the error it throws, or "Completed!". */
  function Closing(failure: Option<string>): (m: Message)
    ensures failure.Some? ==> m == Message(failure.value, Error)
    ensures failure.None? ==> m == Message(Completed, Exit)
  {
    if failure.Some? then Message(failure.value, Error) else Message(Completed, Exit)
  }

  /** Every call begins with the URL request message, and ends with
      "Completed!" when it resolves, or else with the error it throws
      again, so that the queue retries it. */
  lemma AttemptEnds(env: Environment)
    ensures var (ms, a) := AttemptLog(env);
      |ms| >= 2 && ms[0] == Message(GettingUrls, Info) &&
      (a.Resolves? ==> ms[|ms| - 1] == Message(Completed, Exit)) &&
      (a.Rejects? ==> ms[|ms| - 1] == Message(a.message, Error))
  {
  }

  /** An answer that fails the checks ends the call before any download,
      with the check's message. */
  lemma BadAnswerRejects(env: Environment)
    requires env.answer.Success? && Validate(env.answer.value).Failure?
    ensures AttemptLog(env).0 == [Message(GettingUrls, Info), Message(Validate(env.answer.value).error, Error)]
    ensures AttemptLog(env).1 == Tasker.Rejects(Validate(env.answer.value).error)
  {
    var e := Validate(env.answer.value).error;
    assert AttemptLog(env).1 == Tasker.Rejects(e);
    assert AttemptLog(env).0 == [Message(GettingUrls, Info)] + [Message(e, Error)];
  }

  /** The tasker's view of an agency's task: how each call ends. */
  function Body(envs: seq<Environment>): (b: Tasker.Body)
    ensures |b| == |envs| && forall i :: 0 <= i < |envs| ==> b[i] == AttemptLog(envs[i]).1
  {
    seq(|envs|, i requires 0 <= i < |envs| => AttemptLog(envs[i]).1)
  }

  /** The effect of `initiate` on the task queue, and its outcome. */
  function InitiateStep(s: Tasker.State, limit: nat, name: string, retries: Option<int>, envs: seq<Environment>)
    : (Tasker.State, Outcome<string>)
  {
    if name !in AgencyNames then (s, Fail(NoAgencyMessage))
    else Tasker.AddTaskStep(s, limit, Tasker.Job(name, Body(envs), retries.GetOr(1)))
  }

  /** An unlisted name is refused before anything is queued; a listed one
      is queued under its own name with the given retries, 1 by default. */
  lemma InitiateOutcome(s: Tasker.State, limit: nat, name: string, retries: Option<int>, envs: seq<Environment>)
    ensures name !in AgencyNames ==> InitiateStep(s, limit, name, retries, envs) == (s, Fail(NoAgencyMessage))
    ensures name in AgencyNames ==>
      (InitiateStep(s, limit, name, retries, envs).1 == Pass <==> !Tasker.Exists(s, name))
    ensures name in AgencyNames && s.processing && !Tasker.Exists(s, name) ==>
      InitiateStep(s, limit, name, retries, envs).0.queue ==
        s.queue + [Tasker.Job(name, Body(envs), if retries.Some? then retries.value else 1)]
  {
  }

  /** The messages `initiate` itself emits for an agency: nothing when it
      is refused; otherwise "Queued...", preceded by the URL request message
      when `addTask` starts the task's first call at once (that call runs
      up to its first `await` inside `addTask`). */
  function InitiateLog(s: Tasker.State, limit: nat, name: string, retries: Option<int>): seq<Message> {
    if name !in AgencyNames || Tasker.Exists(s, name) then []
    else
      (if Tasker.StartsNow(s, limit, name, retries.GetOr(1)) then [Message(GettingUrls, Info)] else []) +
      [Message(Queued, Info)]
  }

  /** "Queued..." closes what `initiate` emits exactly when the task is
      accepted; the URL request message comes before it exactly when the
      queue records the task's first call during `initiate`, and then that
      call is the one in progress. */
  lemma InitiateReports(s: Tasker.State, limit: nat, name: string, retries: Option<int>, envs: seq<Environment>)
    requires Tasker.Inv(s, limit)
    ensures var (t, r) := InitiateStep(s, limit, name, retries, envs);
      var ms := InitiateLog(s, limit, name, retries);
      (r.Pass? <==> ms != [] && ms[|ms| - 1] == Message(Queued, Info)) &&
      (r.Fail? ==> ms == []) &&
      t.calls == s.calls + (if Message(GettingUrls, Info) in ms then [name] else []) &&
      (Message(GettingUrls, Info) in ms ==>
        ms == [Message(GettingUrls, Info), Message(Queued, Info)] &&
        t.phase == Tasker.Attempting(Tasker.Job(name, Body(envs), retries.GetOr(1)), 1))
  {
    var job := Tasker.Job(name, Body(envs), retries.GetOr(1));
    if name in AgencyNames {
      Tasker.AddTaskCalls(s, limit, job);
    }
  }

  class Downloader {
    var agencies: map<string, seq<Message>>
    var emitted: seq<Update>

    /** Every configured agency has a message list, and no other name. */
    ghost predicate Valid()
      reads this
    {
      agencies.Keys == set n | n in AgencyNames
    }

    constructor()
      ensures agencies == Seeded(AgencyNames) && emitted == []
      ensures Valid()
    {
      agencies := Seeded(AgencyNames);
      emitted := [];
    }

    /** `appendStatus`: the message goes first, before the earlier ones. */
    method AppendStatus(name: string, m: Message) returns (r: Outcome<string>)
      modifies this
      ensures name in old(agencies) ==> r == Pass && agencies == old(agencies)[name := [m] + old(agencies)[name]]
      ensures name !in old(agencies) ==> r == Fail("No agency with name " + name) && agencies == old(agencies)
      ensures emitted == old(emitted) && agencies.Keys == old(agencies).Keys
    {
      if name !in agencies {
        return Fail("No agency with name " + name);
      }
      agencies := agencies[name := [m] + agencies[name]];
      r := Pass;
    }

    /** `cleanup`: the agency's list is emptied. */
    method Cleanup(name: string) returns (r: Outcome<string>)
      modifies this
      ensures name in old(agencies) ==> r == Pass && agencies == old(agencies)[name := []]
      ensures name !in old(agencies) ==> r == Fail(AgencyNotFoundMessage) && agencies == old(agencies)
      ensures emitted == old(emitted) && agencies.Keys == old(agencies).Keys
    {
      if name !in agencies {
        return Fail(AgencyNotFoundMessage);
      }
      agencies := agencies[name := []];
      r := Pass;
    }

    /** `getAgency` */
    function GetAgency(name: string): (r: Result<seq<Message>, string>)
      reads this
      ensures r.Success? <==> name in agencies
      ensures r.Success? ==> r.value == agencies[name]
      ensures r.Failure? ==> r.error == "No agency with name " + name
    {
      if name in agencies then Success(agencies[name]) else Failure("No agency with name " + name)
    }

    /** `getAgencies` */
    function GetAgencies(): (m: map<string, seq<Message>>)
      reads this
      ensures m == agencies
    {
      agencies
    }

    method Emit(name: string, m: Message)
      modifies this
      ensures emitted == old(emitted) + [Update(name, m)] && agencies == old(agencies)
    {
      emitted := emitted + [Update(name, m)];
    }

    /** Emits the messages one after the other. */
    method EmitAll(name: string, ms: seq<Message>)
      modifies this
      ensures emitted == old(emitted) + Tagged(name, ms) && agencies == old(agencies)
    {
      emitted := emitted + Tagged(name, ms);
    }

    /** One call of the task `initiate` queues for `name`, as the queue's
        loop starts it: `Open`, then `Resume`, so that the agency is looked
        up first; then the request, the checks, the downloads and the
        archives, each message emitted as it happens; `cleanup` runs last
        whatever the outcome. */
    method RunAttempt(name: string, env: Environment) returns (a: Tasker.Attempt)
      modifies this
      ensures name !in old(agencies) ==>
        a == Tasker.Rejects(AgencyNotFoundMessage) && agencies == old(agencies) && emitted == old(emitted)
      ensures name in old(agencies) ==>
        a == AttemptLog(env).1 && agencies == old(agencies)[name := []] &&
        emitted == old(emitted) + Tagged(name, AttemptLog(env).0)
    {
      var found := Open(name);
      a := Resume(name, found, env);
      if found {
        ghost var sent := TaggedAppend(name, old(emitted), [Message(GettingUrls, Info)], ResumeLog(env));
      }
    }

    /** A call up to its first `await`: the agency is looked up and, when
        it is found, the URL request message is emitted. */
    method Open(name: string) returns (found: bool)
      modifies this
      ensures found == (name in old(agencies)) && agencies == old(agencies)
      ensures emitted == old(emitted) + (if found then [Update(name, Message(GettingUrls, Info))] else [])
    {
      found := name in agencies;
      if found {
        Emit(name, Message(GettingUrls, Info));
      }
    }

    /** The rest of a call after `Open`: a missing agency throws "Agency
        not found" outside the `try` block; otherwise the `try` block, then
        "Completed!" or the caught error, and `cleanup` last. */
    method Resume(name: string, found: bool, env: Environment) returns (a: Tasker.Attempt)
      requires found ==> name in agencies
      modifies this
      ensures !found ==>
        a == Tasker.Rejects(AgencyNotFoundMessage) && agencies == old(agencies) && emitted == old(emitted)
      ensures found ==>
        a == AttemptLog(env).1 && agencies == old(agencies)[name := []] &&
        emitted == old(emitted) + Tagged(name, ResumeLog(env))
    {
      if !found {
        return Tasker.Rejects(AgencyNotFoundMessage);
      }
      var failure := RunTry(name, env);
      a := if failure.Some? then Tasker.Rejects(failure.value) else Tasker.Resolves;
      Emit(name, Closing(failure));
      ghost var sent := TaggedSnoc(name, old(emitted), TryLog(env).0, Closing(failure));
      var cleaned := Cleanup(name);
    }

    /** The `try` block of one call: the request, the checks on the
        answer, the downloads and the archive loop. */
    method RunTry(name: string, env: Environment) returns (failure: Option<string>)
      modifies this
      ensures emitted == old(emitted) + Tagged(name, TryLog(env).0)
      ensures failure == TryLog(env).1 && agencies == old(agencies)
    {
      match env.answer {
        case Failure(e) =>
          failure := Some(e);
        case Success(response) =>
          var urls := Validate(response);
          if urls.Failure? {
            failure := Some(urls.error);
          } else if env.download.Fail? {
            Emit(name, Message(DownloadingZip, Info));
            failure := Some(env.download.error);
          } else {
            var head := [Message(DownloadingZip, Info), Message(DownloadCompleted, Info)];
            EmitAll(name, head);
            failure := RunFiles(name, env.files, |urls.value|);
            ghost var fs := FilesMessages(env.files, |urls.value|, 0);
            assert TryLog(env).0 == head + fs;
            ghost var sent := TaggedAppend(name, old(emitted), head, fs);
          }
      }
    }

    /** The archive loop of the task: for each archive, the parsing
        message, then its processing and removal; the first error ends it. */
    method RunFiles(name: string, files: seq<FileStep>, n: nat) returns (failure: Option<string>)
      modifies this
      ensures emitted == old(emitted) + Tagged(name, FilesMessages(files, n, 0))
      ensures failure == FilesFailure(files, n, 0) && agencies == old(agencies)
    {
      ghost var before := emitted;
      ghost var sent: seq<Message> := [];
      failure := None;
      var i := 0;
      while i < n && failure.None?
        invariant i <= n
        invariant emitted == before + Tagged(name, sent) && agencies == old(agencies)
        invariant Done(files, n, i, sent, failure)
        decreases n - i
      {
        var ms := StepMessages(files, n, i);
        var f := StepFailure(files, i);
        DoneStep(files, n, i, sent);
        EmitAll(name, ms);
        sent := TaggedAppend(name, before, sent, ms);
        failure := f;
        i := i + 1;
      }
      DoneEnd(files, n, i, sent, failure);
    }

    /** `initiate`: an unlisted name throws before anything happens; the
        task is added to the queue, which on an idle queue runs its first
        call up to the first `await` (`Open`; `Resume` is the rest of that
        call); only once the task is accepted is "Queued..." emitted, so a
        refused duplicate emits nothing. */
    method Initiate(tasker: Tasker.Tasker, name: string, retries: Option<int>, envs: seq<Environment>)
      returns (r: Outcome<string>)
      requires Valid()
      modifies this, tasker
      ensures tasker.Snapshot() == InitiateStep(old(tasker.Snapshot()), tasker.limit, name, retries, envs).0
      ensures r == InitiateStep(old(tasker.Snapshot()), tasker.limit, name, retries, envs).1
      ensures emitted == old(emitted) + Tagged(name, InitiateLog(old(tasker.Snapshot()), tasker.limit, name, retries))
      ensures agencies == old(agencies)
    {
      if name !in AgencyNames {
        return Fail(NoAgencyMessage);
      }
      var startsNow := Tasker.StartsNow(tasker.Snapshot(), tasker.limit, name, retries.GetOr(1));
      r := tasker.AddTask(name, Body(envs), retries.GetOr(1));
      if startsNow {
        var found := Open(name);
      }
      if r.Pass? {
        Emit(name, Message(Queued, Info));
      }
    }

    /** `abort`: the queued task is cancelled first, so "Cancelled by user"
        is emitted only when a queued task was removed. */
    method Abort(tasker: Tasker.Tasker, name: string) returns (r: Outcome<string>)
      modifies this, tasker
      ensures var (t, outcome) := Tasker.CancelTaskStep(old(tasker.Snapshot()), name);
        tasker.Snapshot() == t && r == outcome
      ensures emitted == old(emitted) + (if r.Pass? then [Update(name, Message(Cancelled, Exit))] else [])
      ensures agencies == old(agencies)
    {
      r := tasker.CancelTask(name);
      if r.Pass? {
        Emit(name, Message(Cancelled, Exit));
      }
    }
  }
}
