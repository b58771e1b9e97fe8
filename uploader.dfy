/** `Uploader` of `ratings-history-express/src/services/uploader.ts`: the
    upload's message log, most recent first, and the single queued upload
    task under the fixed id "upload".

    The events the uploader emits (`UPLOAD_UPDATE`) are kept, in order, in
    `emitted`; the archive processing of a call is given as its outcome. */
module Uploader {
  import opened Wrappers
  import opened Status
  import Tasker

  const UploadId := "upload"
  const ProcessStarted := "Process started"

  /** The messages one call of the upload task emits: "Process started",
      then "Completed!" or the text of what processing threw. */
  function UploadLog(processed: Outcome<string>): (ms: seq<Message>)
    ensures |ms| == 2 && ms[0] == Message(ProcessStarted, Info)
    ensures processed.Pass? <==> ms[1] == Message(Completed, Exit)
    ensures processed.Fail? ==> ms[1] == Message(processed.error, Error)
    ensures processed.Fail? <==> ms[1].kind == Error
  {
    [Message(ProcessStarted, Info),
     if processed.Pass? then Message(Completed, Exit) else Message(processed.error, Error)]
  }

  /** The task as the queue sees it: it catches whatever processing
      throws, and does not wait for `cleanup`, so every call resolves. */
  const UploadBody: Tasker.Body := []

  /** The effect of `initiate` on the task queue, and its outcome. */
  function InitiateStep(s: Tasker.State, limit: nat): (Tasker.State, Outcome<string>) {
    Tasker.AddTaskStep(s, limit, Tasker.Job(UploadId, UploadBody, 1))
  }

  /** While an upload is queued or running, a second one is refused and
      the queue is left as it was; otherwise it is accepted. */
  lemma OneUploadAtATime(s: Tasker.State, limit: nat)
    ensures Tasker.Exists(s, UploadId) ==> InitiateStep(s, limit) == (s, Fail(Tasker.DuplicateMessage))
    ensures !Tasker.Exists(s, UploadId) ==> InitiateStep(s, limit).1 == Pass
  {
  }

  /** The messages `initiate` itself emits: "Queued...", then "Process
      started" when `addTask` starts the upload's first call at once (that
      call runs up to its first `await` inside `addTask`). */
  function InitiateLog(s: Tasker.State, limit: nat): seq<Message> {
    [Message(Queued, Info)] +
    (if Tasker.StartsNow(s, limit, UploadId, 1) then [Message(ProcessStarted, Info)] else [])
  }

  /** "Queued..." is emitted whatever happens next; "Process started"
      follows it exactly when the queue records the upload's first call
      during `initiate`, which happens only to an accepted upload. */
  lemma InitiateReports(s: Tasker.State, limit: nat)
    requires Tasker.Inv(s, limit)
    ensures var (t, r) := InitiateStep(s, limit);
      var ms := InitiateLog(s, limit);
      ms[0] == Message(Queued, Info) &&
      t.calls == s.calls + (if Message(ProcessStarted, Info) in ms then [UploadId] else []) &&
      (Message(ProcessStarted, Info) in ms ==> r == Pass && ms == [Message(Queued, Info), Message(ProcessStarted, Info)])
  {
    Tasker.AddTaskCalls(s, limit, Tasker.Job(UploadId, UploadBody, 1));
  }

  /** The queue reports every upload as done on its first call. */
  lemma UploadNeverFails()
    ensures Tasker.Calls(UploadBody, 1, 1) == 1
    ensures Tasker.Outcome(UploadBody, 1, 1) == Tasker.Entry(1, None)
  {
  }

  class Uploader {
    var messages: seq<Message>
    var zipFilePath: Option<string>
    var emitted: seq<Message>
    /** Paths removed by `cleanup`, in order. */
    var unlinked: seq<string>

    constructor()
      ensures messages == [] && zipFilePath == None && emitted == [] && unlinked == []
    {
      messages := [];
      zipFilePath := None;
      emitted := [];
      unlinked := [];
    }

    /** `appendMessage`: the new message first, the others after it in
        their order. */
    method AppendMessage(m: Message)
      modifies this
      ensures messages == [m] + old(messages)
      ensures zipFilePath == old(zipFilePath) && emitted == old(emitted) && unlinked == old(unlinked)
    {
      messages := [m] + messages;
    }

    /** `getMessages` */
    function GetMessages(): (ms: seq<Message>)
      reads this
      ensures ms == messages
    {
      messages
    }

    /** `cleanup`: the log is emptied at once; only when a path is set is
        it unlinked, and then forgotten unless the unlink fails (`unlink`
        is how it ends), in which case the failure is returned. */
    method Cleanup(unlink: Outcome<string>) returns (r: Outcome<string>)
      modifies this
      ensures messages == [] && emitted == old(emitted)
      ensures old(zipFilePath).None? ==> r == Pass && zipFilePath == None && unlinked == old(unlinked)
      ensures old(zipFilePath).Some? ==>
        unlinked == old(unlinked) + (if unlink.Pass? then [old(zipFilePath).value] else []) &&
        r == unlink && zipFilePath == (if unlink.Pass? then None else old(zipFilePath))
    {
      messages := [];
      if zipFilePath.None? {
        return Pass;
      }
      r := unlink;
      if unlink.Pass? {
        unlinked := unlinked + [zipFilePath.value];
        zipFilePath := None;
      }
    }

    method Emit(m: Message)
      modifies this
      ensures emitted == old(emitted) + [m]
      ensures messages == old(messages) && zipFilePath == old(zipFilePath) && unlinked == old(unlinked)
    {
      emitted := emitted + [m];
    }

    /** One call of the upload task, as the queue's loop starts it:
        `Open`, then `Resume`. */
    method RunAttempt(processed: Outcome<string>, unlink: Outcome<string>) returns (a: Tasker.Attempt)
      modifies this
      ensures a == Tasker.Resolves
      ensures emitted == old(emitted) + UploadLog(processed) && messages == []
      ensures old(zipFilePath).None? ==> zipFilePath == None && unlinked == old(unlinked)
    {
      Open();
      a := Resume(processed, unlink);
    }

    /** A call up to its first `await`: "Process started". */
    method Open()
      modifies this
      ensures emitted == old(emitted) + [Message(ProcessStarted, Info)]
      ensures messages == old(messages) && zipFilePath == old(zipFilePath) && unlinked == old(unlinked)
    {
      Emit(Message(ProcessStarted, Info));
    }

    /** The rest of a call after `Open`: "Completed!" or what processing
        threw, then `cleanup`, whose own failure does not reach the queue. */
    method Resume(processed: Outcome<string>, unlink: Outcome<string>) returns (a: Tasker.Attempt)
      modifies this
      ensures a == Tasker.Resolves
      ensures emitted == old(emitted) + UploadLog(processed)[1..] && messages == []
      ensures old(zipFilePath).None? ==> zipFilePath == None && unlinked == old(unlinked)
    {
      if processed.Pass? {
        Emit(Message(Completed, Exit));
      } else {
        Emit(Message(processed.error, Error));
      }
      var unhandled := Cleanup(unlink);
      a := Tasker.Resolves;
    }

    /** `initiate`: "Queued..." is emitted first, and then the task is
        added under "upload"; on an idle queue `addTask` runs its first
        call up to the first `await` (`Open`; `Resume` is the rest of that
        call). */
    method Initiate(tasker: Tasker.Tasker) returns (r: Outcome<string>)
      modifies this, tasker
      ensures tasker.Snapshot() == InitiateStep(old(tasker.Snapshot()), tasker.limit).0
      ensures r == InitiateStep(old(tasker.Snapshot()), tasker.limit).1
      ensures emitted == old(emitted) + InitiateLog(old(tasker.Snapshot()), tasker.limit)
      ensures messages == old(messages) && zipFilePath == old(zipFilePath) && unlinked == old(unlinked)
    {
      Emit(Message(Queued, Info));
      var startsNow := Tasker.StartsNow(tasker.Snapshot(), tasker.limit, UploadId, 1);
      r := tasker.AddTask(UploadId, UploadBody, 1);
      if startsNow {
        Open();
      }
    }

    /** `abort`: the queued upload is cancelled first; when there is none,
        the cancellation throws and "Cancelled by user" is not emitted. */
    method Abort(tasker: Tasker.Tasker) returns (r: Outcome<string>)
      modifies this, tasker
      ensures tasker.Snapshot() == Tasker.CancelTaskStep(old(tasker.Snapshot()), UploadId).0
      ensures r == Tasker.CancelTaskStep(old(tasker.Snapshot()), UploadId).1
      ensures emitted == old(emitted) + (if r.Pass? then [Message(Cancelled, Exit)] else [])
      ensures messages == old(messages) && zipFilePath == old(zipFilePath) && unlinked == old(unlinked)
    {
      r := tasker.CancelTask(UploadId);
      if r.Pass? {
        Emit(Message(Cancelled, Exit));
      }
    }
  }
}
