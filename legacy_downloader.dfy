/** `Downloader` of `ratings-history-express/src/services/downloader.ts`:
    the same per-agency message lists as the backend's, and an `initiate`
    whose task swallows its own errors.

    The older server's task queue (`ratings-history-express/src/services/
    tasker.ts`) has its `addTask` and `cancelTask` commented out; the calls
    are modelled against the backend queue of module `Tasker`, with
    `addTask`'s default of one attempt. */
module LegacyDownloader {
  import opened Wrappers
  import opened Strings
  import opened Status
  import Tasker

  /** A thrown value: an `Error` instance with its message, or anything
      else (a string, say), which the task's `catch` does not report. */
  datatype Thrown = ErrorValue(message: string) | OtherValue

  /** What becomes of one downloaded archive: processed and removed, or
      the value processing or removing it throws. */
  datatype FileStep = Processed | ParseFails(thrown: Thrown) | RemoveFails(thrown: Thrown)

  /** What one call of an agency's task meets: the urls the agency function
      answers (or what it throws, a `TypeError` when the answer has no
      `urls` among them), the downloads (all of them, or the reason of the
      first that fails), and each archive. */
  datatype Environment = Environment(answer: Result<seq<string>, Thrown>, download: Outcome<string>, files: seq<FileStep>)

  const DownloadErrorPrefix := "Error while dowbloading ZIP: "

  /** ` (i+1/n)`, whatever the number of archives. */
  function Counter(i: nat, n: nat): (c: string)
    ensures c == " (" + NatText(i + 1) + "/" + NatText(n) + ")"
    ensures |c| >= 5 && c[0] == ' ' && c[|c| - 1] == ')'
  {
    " (" + NatText(i + 1) + "/" + NatText(n) + ")"
  }

  /** What becomes of archive `i`; archives the environment does not list
      are processed. */
  function Step(files: seq<FileStep>, i: nat): FileStep {
    if i < |files| then files[i] else Processed
  }

  /** The messages of archive `i` of `n`: the parsing message, then, once
      it is parsed, the removal message. */
  function StepMessages(files: seq<FileStep>, n: nat, i: nat): (ms: seq<Message>)
    ensures 1 <= |ms| <= 2 && ms[0] == Message(ParsingData + Counter(i, n), Info)
  {
    var parsing := Message(ParsingData + Counter(i, n), Info);
    if Step(files, i).ParseFails? then [parsing] else [parsing, Message(ZipProcessed, Info)]
  }

  /** The value archive `i` throws, if any. */
  function StepFailure(files: seq<FileStep>, i: nat): Option<Thrown> {
    match Step(files, i)
    case Processed => None
    case ParseFails(t) => Some(t)
    case RemoveFails(t) => Some(t)
  }

  /** The messages of the archive loop from archive `i` on. */
  function FilesMessages(files: seq<FileStep>, n: nat, i: nat): seq<Message>
    requires i <= n
    decreases n - i
  {
    if i == n then []
    else if StepFailure(files, i).Some? then StepMessages(files, n, i)
    else StepMessages(files, n, i) + FilesMessages(files, n, i + 1)
  }

  /** The value that ends the archive loop from archive `i` on, if any. */
  function FilesFailure(files: seq<FileStep>, n: nat, i: nat): Option<Thrown>
    requires i <= n
    decreases n - i
  {
    if i == n then None
    else if StepFailure(files, i).Some? then StepFailure(files, i)
    else FilesFailure(files, n, i + 1)
  }

  /** The loop stops at the first archive that throws, having announced
      every archive up to it. */
  lemma {:induction false} FilesFailureIsFirst(files: seq<FileStep>, n: nat, i: nat)
    requires i <= n
    ensures FilesFailure(files, n, i).None? <==> forall j :: i <= j < n ==> StepFailure(files, j).None?
    ensures FilesFailure(files, n, i).Some? ==>
      exists j :: i <= j < n && FilesFailure(files, n, i) == StepFailure(files, j) &&
        forall k :: i <= k < j ==> StepFailure(files, k).None?
    decreases n - i
  {
    if i < n && StepFailure(files, i).None? {
      FilesFailureIsFirst(files, n, i + 1);
      if FilesFailure(files, n, i).Some? {
        var j :| i + 1 <= j < n && FilesFailure(files, n, i + 1) == StepFailure(files, j) &&
          forall k :: i + 1 <= k < j ==> StepFailure(files, k).None?;
        assert forall k :: i <= k < j ==> StepFailure(files, k).None?;
      }
    }
  }

  /** After `sent` has been emitted for the archives before `i`: while
      nothing has been thrown, the rest of the loop's messages follow;
      once something has, `sent` is the whole log. */
  ghost predicate Done(files: seq<FileStep>, n: nat, i: nat, sent: seq<Message>, failure: Option<Thrown>)
    requires i <= n
  {
    if failure.None? then
      FilesMessages(files, n, 0) == sent + FilesMessages(files, n, i) &&
      FilesFailure(files, n, 0) == FilesFailure(files, n, i)
    else
      FilesMessages(files, n, 0) == sent && FilesFailure(files, n, 0) == failure
  }

  /** One archive more keeps `Done`. */
  lemma DoneStep(files: seq<FileStep>, n: nat, i: nat, sent: seq<Message>)
    requires i < n && Done(files, n, i, sent, None)
    ensures Done(files, n, i + 1, sent + StepMessages(files, n, i), StepFailure(files, i))
  {
    if StepFailure(files, i).None? {
      var ms, rest := StepMessages(files, n, i), FilesMessages(files, n, i + 1);
      assert sent + (ms + rest) == (sent + ms) + rest;
    }
  }

  /** When the loop stops, `sent` is the whole log. */
  lemma DoneEnd(files: seq<FileStep>, n: nat, i: nat, sent: seq<Message>, failure: Option<Thrown>)
    requires i <= n && Done(files, n, i, sent, failure)
    requires i == n || failure.Some?
    ensures FilesMessages(files, n, 0) == sent && FilesFailure(files, n, 0) == failure
  {
    if failure.None? {
      assert sent + [] == sent;
    }
  }

  /** The messages emitted inside the `try` block of one call, and the
      value it throws, if any. */
  function TryLog(env: Environment): (seq<Message>, Option<Thrown>) {
    match env.answer
    case Failure(t) => ([], Some(t))
    case Success(urls) =>
      if env.download.Fail? then
        ([Message(DownloadingZip, Info)], Some(ErrorValue(DownloadErrorPrefix + env.download.error)))
      else
        var ms := [Message(DownloadingZip, Info), Message(DownloadCompleted, Info)] + FilesMessages(env.files, |urls|, 0);
        var failure := FilesFailure(env.files, |urls|, 0);
        (if failure.None? then ms + [Message(Completed, Exit)] else ms, failure)
  }

  /** What the `catch` block emits for a thrown value: its message when it
      is an `Error`, nothing otherwise. */
  function Caught(t: Thrown): (ms: seq<Message>)
    ensures t.ErrorValue? ==> ms == [Message(t.message, Error)]
    ensures t.OtherValue? <==> ms == []
  {
    if t.ErrorValue? then [Message(t.message, Error)] else []
  }

  /** The messages one call of the task emits, once the agency is found. */
  function AttemptLog(env: Environment): seq<Message> {
    var (ms, failure) := TryLog(env);
    if failure.Some? then ms + Caught(failure.value) else ms
  }

  /** A call ends with "Completed!" exactly when nothing was thrown, with
      the message of a thrown `Error` when one was, and silently when
      something else was thrown. */
  lemma AttemptEnds(env: Environment)
    ensures TryLog(env).1.None? ==>
      AttemptLog(env) != [] && AttemptLog(env)[|AttemptLog(env)| - 1] == Message(Completed, Exit)
    ensures TryLog(env).1.Some? && TryLog(env).1.value.ErrorValue? ==>
      AttemptLog(env) != [] && AttemptLog(env)[|AttemptLog(env)| - 1] == Message(TryLog(env).1.value.message, Error)
    ensures TryLog(env).1 == Some(OtherValue) ==> AttemptLog(env) == TryLog(env).0
    ensures forall m :: m in AttemptLog(env) && m.kind == Exit ==> m == Message(Completed, Exit)
  {
    var (ms, failure) := TryLog(env);
    match env.answer {
      case Failure(t) =>
      case Success(urls) =>
        if env.download.Pass? {
          var fs := FilesMessages(env.files, |urls|, 0);
          FilesInfo(env.files, |urls|, 0);
          assert forall m :: m in [Message(DownloadingZip, Info), Message(DownloadCompleted, Info)] + fs ==> m.kind == Info;
        }
    }
  }

  /** The archive loop emits only progress messages. */
  lemma {:induction false} FilesInfo(files: seq<FileStep>, n: nat, i: nat)
    requires i <= n
    ensures forall m :: m in FilesMessages(files, n, i) ==> m.kind == Info
    decreases n - i
  {
    if i < n && StepFailure(files, i).None? {
      FilesInfo(files, n, i + 1);
    }
  }

  /** The task as the queue sees it: for a configured agency every call
      resolves, whatever happened inside; for any other name the one call
      throws "Agency not found". */
  function Body(name: string): (b: Tasker.Body)
    ensures name in AgencyNames ==> forall k :: Tasker.Call(b, k).Resolves?
    ensures name !in AgencyNames ==> Tasker.Call(b, 1) == Tasker.Rejects(AgencyNotFoundMessage)
  {
    if name in AgencyNames then [] else [Tasker.Rejects(AgencyNotFoundMessage)]
  }

  /** With `addTask`'s single attempt, the queue reports a configured
      agency's task as done on its first call, never as failed. */
  lemma NeverRetried(name: string)
    requires name in AgencyNames
    ensures Tasker.Calls(Body(name), 1, 1) == 1
    ensures Tasker.Outcome(Body(name), 1, 1) == Tasker.Entry(1, None)
  {
  }

  class Downloader {
    var agencies: map<string, seq<Message>>
    var emitted: seq<Update>

    /** Every key of the agency functions' map has a message list, and no
        other name. */
    ghost predicate Valid()
      reads this
    {
      agencies.Keys == set n | n in AgencyNames
    }

    /** `initAgencies` */
    constructor()
      ensures agencies == Seeded(AgencyNames) && emitted == []
      ensures Valid()
    {
      agencies := Seeded(AgencyNames);
      emitted := [];
    }

    /** `appendStatus`: the message goes first, before the earlier ones. */
    method AppendStatus(name: string, m: Message) returns (r: Outcome<string>)
      modifies this
      ensures name in old(agencies) ==> r == Pass && agencies == old(agencies)[name := [m] + old(agencies)[name]]
      ensures name !in old(agencies) ==> r == Fail("No agency with name " + name) && agencies == old(agencies)
      ensures emitted == old(emitted) && agencies.Keys == old(agencies).Keys
    {
      if name !in agencies {
        return Fail("No agency with name " + name);
      }
      agencies := agencies[name := [m] + agencies[name]];
      r := Pass;
    }

    /** `cleanup`: the agency's list is emptied. */
    method Cleanup(name: string) returns (r: Outcome<string>)
      modifies this
      ensures name in old(agencies) ==> r == Pass && agencies == old(agencies)[name := []]
      ensures name !in old(agencies) ==> r == Fail(AgencyNotFoundMessage) && agencies == old(agencies)
      ensures emitted == old(emitted) && agencies.Keys == old(agencies).Keys
    {
      if name !in agencies {
        return Fail(AgencyNotFoundMessage);
      }
      agencies := agencies[name := []];
      r := Pass;
    }

    /** `getAgency` */
    function GetAgency(name: string): (r: Result<seq<Message>, string>)
      reads this
      ensures r.Success? <==> name in agencies
      ensures r.Success? ==> r.value == agencies[name]
      ensures r.Failure? ==> r.error == "No agency with name " + name
    {
      if name in agencies then Success(agencies[name]) else Failure("No agency with name " + name)
    }

    /** `getAgencies` */
    function GetAgencies(): (m: map<string, seq<Message>>)
      reads this
      ensures m == agencies
    {
      agencies
    }

    method Emit(name: string, m: Message)
      modifies this
      ensures emitted == old(emitted) + [Update(name, m)] && agencies == old(agencies)
    {
      emitted := emitted + [Update(name, m)];
    }

    /** Emits the messages one after the other. */
    method EmitAll(name: string, ms: seq<Message>)
      modifies this
      ensures emitted == old(emitted) + Tagged(name, ms) && agencies == old(agencies)
    {
      emitted := emitted + Tagged(name, ms);
    }

    /** One call of the task `initiate` queues: the agency is looked up
        first; then the downloads and the archives, each message emitted as
        it happens; a thrown `Error` is reported and nothing is thrown
        again; `cleanup` runs last whatever the outcome. */
    method RunAttempt(name: string, env: Environment) returns (a: Tasker.Attempt)
      modifies this
      ensures name !in old(agencies) ==>
        a == Tasker.Rejects(AgencyNotFoundMessage) && agencies == old(agencies) && emitted == old(emitted)
      ensures name in old(agencies) ==>
        a == Tasker.Resolves && agencies == old(agencies)[name := []] &&
        emitted == old(emitted) + Tagged(name, AttemptLog(env))
    {
      if name !in agencies {
        return Tasker.Rejects(AgencyNotFoundMessage);
      }
      RunLogged(name, env);
      var cleaned := Cleanup(name);
      a := Tasker.Resolves;
    }

    /** The body of one call once the agency is found: the `try` block,
        then the `catch` block's report of a thrown `Error`. */
    method RunLogged(name: string, env: Environment)
      modifies this
      ensures agencies == old(agencies) && emitted == old(emitted) + Tagged(name, AttemptLog(env))
    {
      var failure := RunTry(name, env);
      if failure.Some? && failure.value.ErrorValue? {
        Emit(name, Message(failure.value.message, Error));
        ghost var sent := TaggedSnoc(name, old(emitted), TryLog(env).0, Message(failure.value.message, Error));
      }
    }

    /** The `try` block of one call: the agency function, the downloads,
        the archive loop and the closing "Completed!". */
    method RunTry(name: string, env: Environment) returns (failure: Option<Thrown>)
      modifies this
      ensures emitted == old(emitted) + Tagged(name, TryLog(env).0)
      ensures failure == TryLog(env).1 && agencies == old(agencies)
    {
      match env.answer {
        case Failure(t) =>
          failure := Some(t);
        case Success(urls) =>
          if env.download.Fail? {
            Emit(name, Message(DownloadingZip, Info));
            failure := Some(ErrorValue(DownloadErrorPrefix + env.download.error));
          } else {
            var head := [Message(DownloadingZip, Info), Message(DownloadCompleted, Info)];
            EmitAll(name, head);
            failure := RunFiles(name, env.files, |urls|);
            ghost var fs := FilesMessages(env.files, |urls|, 0);
            ghost var sent := TaggedAppend(name, old(emitted), head, fs);
            if failure.None? {
              Emit(name, Message(Completed, Exit));
              sent := TaggedSnoc(name, old(emitted), head + fs, Message(Completed, Exit));
            }
            assert TryLog(env).0 == if failure.None? then head + fs + [Message(Completed, Exit)] else head + fs;
          }
      }
    }

    /** The archive loop of the task: for each archive, the parsing
        message with its counter, then its processing and removal; the
        first value thrown ends it. */
    method RunFiles(name: string, files: seq<FileStep>, n: nat) returns (failure: Option<Thrown>)
      modifies this
      ensures emitted == old(emitted) + Tagged(name, FilesMessages(files, n, 0))
      ensures failure == FilesFailure(files, n, 0) && agencies == old(agencies)
    {
      ghost var before := emitted;
      ghost var sent: seq<Message> := [];
      failure := None;
      var i := 0;
      while i < n && failure.None?
        invariant i <= n
        invariant emitted == before + Tagged(name, sent) && agencies == old(agencies)
        invariant Done(files, n, i, sent, failure)
        decreases n - i
      {
        var ms := StepMessages(files, n, i);
        var f := StepFailure(files, i);
        DoneStep(files, n, i, sent);
        EmitAll(name, ms);
        sent := TaggedAppend(name, before, sent, ms);
        failure := f;
        i := i + 1;
      }
      DoneEnd(files, n, i, sent, failure);
    }

    /** `initiate`: "Queued..." is emitted first, for any name, and only
        then is the task added, so a refused duplicate still shows it. */
    method Initiate(tasker: Tasker.Tasker, name: string) returns (r: Outcome<string>)
      modifies this, tasker
      ensures var (t, outcome) := Tasker.AddTaskStep(old(tasker.Snapshot()), tasker.limit, Tasker.Job(name, Body(name), 1));
        tasker.Snapshot() == t && r == outcome
      ensures emitted == old(emitted) + [Update(name, Message(Queued, Info))]
      ensures agencies == old(agencies)
    {
      Emit(name, Message(Queued, Info));
      r := tasker.AddTask(name, Body(name), 1);
    }

    /** `abort`: the queued task is cancelled first; when there is none,
        the cancellation throws and "Cancelled by user" is not emitted. */
    method Abort(tasker: Tasker.Tasker, name: string) returns (r: Outcome<string>)
      modifies this, tasker
      ensures var (t, outcome) := Tasker.CancelTaskStep(old(tasker.Snapshot()), name);
        tasker.Snapshot() == t && r == outcome
      ensures emitted == old(emitted) + (if r.Pass? then [Update(name, Message(Cancelled, Exit))] else [])
      ensures agencies == old(agencies)
    {
      r := tasker.CancelTask(name);
      if r.Pass? {
        Emit(name, Message(Cancelled, Exit));
      }
    }
  }
}
