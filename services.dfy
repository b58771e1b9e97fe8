/** The wiring of `backend-node/src/services/index.ts`: the shared
    instances, the handlers of the `UPLOAD_UPDATE` and `AGENCIES_UPDATE`
    events, and the summary of the report the queue emits when it drains
    (`TASKS_COMPLETE`).

    The uploader of the current back end is not part of this model; the
    older `Uploader` of module `Uploader`, which has the same
    `appendMessage` and `getMessages`, stands in for it. The e-mail itself
    (its transport, addresses and surrounding HTML) is left out: the
    summary is its counts and its list items. */
module Services {
  import opened Wrappers
  import opened Strings
  import opened Status
  import Tasker
  import BackendDownloader
  import Uploader
  import Hub
  import BackendSocket
  import Scheduler

  const ConcurrencyLimit := 1
  const ScheduleRule := "0 0 1,15 * *"
  const SchedulerRetries := 3
  const SocketPath := "/ws"

  /** The queue, downloader, uploader, hub and scheduler the back end
      shares: a queue running one task at a time, and a scheduler for
      every configured agency with 3 retries. */
  method Wire() returns (tasker: Tasker.Tasker, downloader: BackendDownloader.Downloader, uploader: Uploader.Uploader,
                         socket: BackendSocket.Socket, scheduler: Scheduler.Scheduler)
    ensures tasker.limit == 1 && tasker.Snapshot() == Tasker.Initial
    ensures downloader.agencies == Seeded(AgencyNames) && downloader.emitted == []
    ensures uploader.messages == [] && socket.sent == [] && socket.order == []
    ensures scheduler.tasks == AgencyNames && scheduler.retries == 3 && scheduler.scheduleRule == ScheduleRule
  {
    downloader := new BackendDownloader.Downloader();
    uploader := new Uploader.Uploader();
    socket := new BackendSocket.Socket();
    tasker := new Tasker.Tasker(ConcurrencyLimit);
    scheduler := new Scheduler.Scheduler(AgencyNames, ScheduleRule, SchedulerRetries);
  }

  /** `UPLOAD_UPDATE`: the message is put first in the upload log, and the
      whole log is broadcast to its subscribers. */
  method OnUploadUpdate(uploader: Uploader.Uploader, socket: BackendSocket.Socket, m: Message)
    modifies uploader, socket
    ensures uploader.messages == [m] + old(uploader.messages)
    ensures socket.sent ==
      old(socket.sent) + Hub.BroadcastFrames(socket.order, socket.subs, socket.open, Hub.UploadUpdate,
                                             Hub.Messages(uploader.messages))
    ensures socket.order == old(socket.order) && socket.subs == old(socket.subs) && socket.open == old(socket.open)
  {
    uploader.AppendMessage(m);
    var messages := uploader.GetMessages();
    socket.Broadcast(Hub.UploadUpdate, Hub.Messages(messages));
  }

  /** `AGENCIES_UPDATE`: the message is put first in its agency's list and
      the whole agencies map is broadcast; for an unknown agency the error
      is logged, nothing changes and nothing is broadcast. */
  method OnAgenciesUpdate(downloader: BackendDownloader.Downloader, socket: BackendSocket.Socket, u: Update)
    returns (logged: Option<string>)
    modifies downloader, socket
    ensures u.agencyName in old(downloader.agencies) ==>
      logged == None &&
      downloader.agencies == old(downloader.agencies)[u.agencyName := [u.message] + old(downloader.agencies)[u.agencyName]] &&
      socket.sent == old(socket.sent) +
        Hub.BroadcastFrames(socket.order, socket.subs, socket.open, Hub.AgenciesUpdate, Hub.Agencies(downloader.agencies))
    ensures u.agencyName !in old(downloader.agencies) ==>
      logged.Some? && downloader.agencies == old(downloader.agencies) && socket.sent == old(socket.sent)
    ensures socket.order == old(socket.order) && socket.subs == old(socket.subs) && socket.open == old(socket.open)
  {
    var r := downloader.AppendStatus(u.agencyName, u.message);
    if r.Fail? {
      return Some(r.error);
    }
    var agencies := downloader.GetAgencies();
    socket.Broadcast(Hub.AgenciesUpdate, Hub.Agencies(agencies));
    logged := None;
  }

  // ---------------------------------------------------------------------
  // The TASKS_COMPLETE report

  /** One entry of `Object.entries(report)`, in the report's key order. */
  datatype Row = Row(id: string, attempts: int, error: Option<string>)

  /** `task.error` is truthy: a recorded, non-empty error message. */
  predicate Failed(r: Row) {
    r.error.Some? && r.error.value != ""
  }

  function FailedRows(rows: seq<Row>): (fs: seq<Row>)
    ensures |fs| <= |rows|
    ensures forall r :: r in fs <==> r in rows && Failed(r)
  {
    if rows == [] then []
    else (if Failed(rows[0]) then [rows[0]] else []) + FailedRows(rows[1..])
  }

  /** JavaScript's decimal rendering of an integer. */
  function IntText(i: int): (s: string)
    ensures |s| >= 1
  {
    if i < 0 then "-" + NatText(-i) else NatText(i)
  }

  /** The part of a list item before the outcome. */
  function Head(r: Row): string {
    "<li>" + r.id + " - Attempts: " + IntText(r.attempts) + " - "
  }

  /** One list item: the id and attempt count, then "Error: " and the
      message exactly when the task failed, and "Success" otherwise. */
  function Line(r: Row): (s: string)
    ensures Head(r) <= s && EndsWith(s, "</li>")
    ensures StartsWith(s[|Head(r)|..], "Error: ") <==> Failed(r)
    ensures Failed(r) ==> Contains(s, r.error.value)
  {
    var s := Head(r) + (if Failed(r) then "Error: " + r.error.value else "Success") + "</li>";
    assert s[|Head(r)|..] == (if Failed(r) then "Error: " + r.error.value else "Success") + "</li>";
    assert Failed(r) ==> OccursAt(s, r.error.value, |Head(r)| + 7);
    assert !Failed(r) ==> s[|Head(r)|..][0] == 'S' != "Error: "[0];
    s
  }

  function Lines(rows: seq<Row>): string {
    if rows == [] then "" else Line(rows[0]) + Lines(rows[1..])
  }

  datatype Summary = Summary(attempted: nat, successful: int, failed: nat, details: string)

  /** The counts and the list of the report e-mail. */
  function Summarize(rows: seq<Row>): (s: Summary)
    ensures s.attempted == |rows| && s.successful + s.failed == s.attempted
    ensures 0 <= s.successful && s.failed <= |rows|
  {
    Summary(|rows|, |rows| - |FailedRows(rows)|, |FailedRows(rows)|, Lines(rows))
  }

  /** The rows of a report whose keys, in insertion order, are `ids`. */
  function RowsOf(report: Tasker.Report, ids: seq<string>): (rows: seq<Row>)
    requires forall id :: id in ids ==> id in report
    ensures |rows| == |ids|
    ensures forall i :: 0 <= i < |ids| ==>
      rows[i] == Row(ids[i], report[ids[i]].attempts, report[ids[i]].error)
  {
    seq(|ids|, i requires 0 <= i < |ids| => Row(ids[i], report[ids[i]].attempts, report[ids[i]].error))
  }

  /** As many keys as distinct ids enumerating them. */
  lemma {:induction false} DistinctCount(ids: seq<string>)
    requires forall i, j :: 0 <= i < j < |ids| ==> ids[i] != ids[j]
    ensures |set id | id in ids| == |ids|
    decreases |ids|
  {
    if ids != [] {
      var init := ids[..|ids| - 1];
      DistinctCount(init);
      assert (set id | id in ids) == (set id | id in init) + {ids[|ids| - 1]};
      assert ids[|ids| - 1] !in init;
    }
  }

  /** For a report enumerated in its key order: every task is counted
      once; the failed rows are exactly the tasks whose recorded error is
      a non-empty message (an error with an empty message counts as a
      success), and the successful ones are the rest. */
  lemma SummaryCounts(report: Tasker.Report, ids: seq<string>)
    requires forall id :: id in ids <==> id in report
    requires forall i, j :: 0 <= i < j < |ids| ==> ids[i] != ids[j]
    ensures var s := Summarize(RowsOf(report, ids));
      s.attempted == |report| && s.successful == s.attempted - s.failed && 0 <= s.successful
    ensures forall r :: r in FailedRows(RowsOf(report, ids)) <==>
      r.id in report && r == Row(r.id, report[r.id].attempts, report[r.id].error) && Failed(r)
  {
    DistinctCount(ids);
    assert report.Keys == set id | id in ids;
    var rows := RowsOf(report, ids);
    forall r: Row | r.id in report && r == Row(r.id, report[r.id].attempts, report[r.id].error)
      ensures r in rows
    {
      var i :| 0 <= i < |ids| && ids[i] == r.id;
      assert rows[i] == r;
    }
  }
}
