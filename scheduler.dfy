/** `Scheduler` of `express-server/src/services/scheduler.ts`: every firing
    of the schedule calls the downloader's `initiate` for each configured
    agency with the configured retries; a refusal is logged and the next
    agency is still tried.

    The `node-schedule` rule itself is not modelled: `Run` is one firing.
    What each agency's task will meet when it runs is given by `envsOf`. */
module Scheduler {
  import opened Wrappers
  import opened Status
  import Tasker
  import BackendDownloader

  /** The queue after the first names of a firing, the messages logged for
      the refused agencies, and the agencies accepted. */
  datatype Sweep = Sweep(state: Tasker.State, errors: seq<string>, accepted: seq<string>)

  /** `initiate` for each name in turn, from the queue `s`. */
  function SweepStep(s: Tasker.State, limit: nat, names: seq<string>, retries: int,
                     envsOf: string -> seq<BackendDownloader.Environment>): Sweep
    decreases |names|
  {
    if names == [] then Sweep(s, [], [])
    else
      var last := names[|names| - 1];
      var w := SweepStep(s, limit, names[..|names| - 1], retries, envsOf);
      var (t, r) := BackendDownloader.InitiateStep(w.state, limit, last, Some(retries), envsOf(last));
      Sweep(t, w.errors + (if r.Fail? then [r.error] else []), w.accepted + (if r.Pass? then [last] else []))
  }

  /** The updates `initiate` emits for each name in turn, from the queue `s`. */
  function SweepLog(s: Tasker.State, limit: nat, names: seq<string>, retries: int,
                    envsOf: string -> seq<BackendDownloader.Environment>): seq<Update>
    decreases |names|
  {
    if names == [] then []
    else
      var last := names[|names| - 1];
      var w := SweepStep(s, limit, names[..|names| - 1], retries, envsOf);
      SweepLog(s, limit, names[..|names| - 1], retries, envsOf) +
        Tagged(last, BackendDownloader.InitiateLog(w.state, limit, last, Some(retries)))
  }

  /** The agencies named by the "Queued..." updates, in order. */
  function QueuedNames(us: seq<Update>): (names: seq<string>)
    ensures |names| <= |us|
  {
    if us == [] then []
    else
      var last := us[|us| - 1];
      QueuedNames(us[..|us| - 1]) + (if last.message == Message(Queued, Info) then [last.agencyName] else [])
  }

  lemma QueuedNamesAppend(us: seq<Update>, vs: seq<Update>)
    ensures QueuedNames(us + vs) == QueuedNames(us) + QueuedNames(vs)
    decreases |vs|
  {
    if vs != [] {
      var n := |vs| - 1;
      assert (us + vs)[..|us + vs| - 1] == us + vs[..n];
      assert (us + vs)[|us + vs| - 1] == vs[n];
      QueuedNamesAppend(us, vs[..n]);
      var tail := if vs[n].message == Message(Queued, Info) then [vs[n].agencyName] else [];
      assert QueuedNames(us) + QueuedNames(vs[..n]) + tail == QueuedNames(us) + (QueuedNames(vs[..n]) + tail);
    } else {
      assert us + vs == us;
    }
  }

  /** A firing emits "Queued..." for exactly the agencies it accepts, once
      each and in the order of `tasks`; the refused ones get no update. */
  lemma {:induction false} SweepQueued(s: Tasker.State, limit: nat, names: seq<string>, retries: int,
                                       envsOf: string -> seq<BackendDownloader.Environment>)
    ensures QueuedNames(SweepLog(s, limit, names, retries, envsOf)) == SweepStep(s, limit, names, retries, envsOf).accepted
    decreases |names|
  {
    if names != [] {
      var init, last := names[..|names| - 1], names[|names| - 1];
      var w := SweepStep(s, limit, init, retries, envsOf);
      var r := BackendDownloader.InitiateStep(w.state, limit, last, Some(retries), envsOf(last)).1;
      var ms := BackendDownloader.InitiateLog(w.state, limit, last, Some(retries));
      SweepQueued(s, limit, init, retries, envsOf);
      QueuedNamesAppend(SweepLog(s, limit, init, retries, envsOf), Tagged(last, ms));
      if r.Pass? {
        assert ms == [Message(Queued, Info)] || ms == [Message(BackendDownloader.GettingUrls, Info), Message(Queued, Info)];
        if |ms| == 2 {
          assert Tagged(last, ms)[..1] == [Update(last, Message(BackendDownloader.GettingUrls, Info))];
        }
      } else {
        assert ms == [];
      }
    }
  }

  /** One more name: `initiate` refuses it exactly when it is not a listed
      agency or is already queued or running; otherwise it is queued or
      running afterwards, and so is everything that was. */
  lemma SweepNext(s: Tasker.State, limit: nat, names: seq<string>, retries: int,
                  envsOf: string -> seq<BackendDownloader.Environment>)
    requires names != []
    ensures var init, last := names[..|names| - 1], names[|names| - 1];
      var w, w' := SweepStep(s, limit, init, retries, envsOf), SweepStep(s, limit, names, retries, envsOf);
      var ok := last in AgencyNames && !Tasker.Exists(w.state, last);
      w'.errors == w.errors + (if ok then [] else [BackendDownloader.InitiateStep(w.state, limit, last, Some(retries), envsOf(last)).1.error]) &&
      w'.accepted == w.accepted + (if ok then [last] else []) &&
      forall x :: Tasker.Exists(w'.state, x) <==> Tasker.Exists(w.state, x) || (x == last && last in AgencyNames)
  {
    var init, last := names[..|names| - 1], names[|names| - 1];
    var w := SweepStep(s, limit, init, retries, envsOf);
    BackendDownloader.InitiateOutcome(w.state, limit, last, Some(retries), envsOf(last));
    if last in AgencyNames {
      forall x ensures Tasker.Exists(BackendDownloader.InitiateStep(w.state, limit, last, Some(retries), envsOf(last)).0, x) <==>
        Tasker.Exists(w.state, x) || x == last
      {
        Tasker.AddTaskExists(w.state, limit, Tasker.Job(last, BackendDownloader.Body(envsOf(last)), retries), x);
      }
    }
  }

  /** A refusal does not stop the firing: afterwards every listed agency
      named in `tasks` is queued or running (besides what already was), and
      nothing else; every name is either accepted once or logged once. */
  lemma {:induction false} SweepAddsAll(s: Tasker.State, limit: nat, names: seq<string>, retries: int,
                                        envsOf: string -> seq<BackendDownloader.Environment>)
    ensures var w := SweepStep(s, limit, names, retries, envsOf);
      (forall x :: Tasker.Exists(w.state, x) <==> Tasker.Exists(s, x) || (x in names && x in AgencyNames)) &&
      |w.errors| + |w.accepted| == |names|
    decreases |names|
  {
    if names != [] {
      var init, last := names[..|names| - 1], names[|names| - 1];
      SweepAddsAll(s, limit, init, retries, envsOf);
      SweepNext(s, limit, names, retries, envsOf);
      assert names == init + [last];
      assert forall x :: x in names <==> x in init || x == last;
    }
  }

  /** Every name is a listed agency, is neither queued nor running in
      `s`, and appears once. */
  predicate Admissible(s: Tasker.State, names: seq<string>) {
    forall i :: 0 <= i < |names| ==>
      names[i] in AgencyNames && !Tasker.Exists(s, names[i]) && names[i] !in names[..i]
  }

  lemma AdmissibleSnoc(s: Tasker.State, names: seq<string>)
    requires names != []
    ensures var n := |names| - 1;
      Admissible(s, names) <==>
        Admissible(s, names[..n]) &&
        names[n] in AgencyNames && !Tasker.Exists(s, names[n]) && names[n] !in names[..n]
  {
    var n := |names| - 1;
    forall i | 0 <= i < n ensures names[..n][i] == names[i] && names[..n][..i] == names[..i] { }
  }

  /** Nothing is logged exactly when every name is a listed agency, is
      neither queued nor running, and appears once. */
  lemma {:induction false} SweepClean(s: Tasker.State, limit: nat, names: seq<string>, retries: int,
                                      envsOf: string -> seq<BackendDownloader.Environment>)
    ensures SweepStep(s, limit, names, retries, envsOf).errors == [] <==> Admissible(s, names)
    decreases |names|
  {
    if names != [] {
      var n := |names| - 1;
      var init, last := names[..n], names[n];
      var w := SweepStep(s, limit, init, retries, envsOf);
      SweepClean(s, limit, init, retries, envsOf);
      SweepAddsAll(s, limit, init, retries, envsOf);
      SweepNext(s, limit, names, retries, envsOf);
      AdmissibleSnoc(s, names);
      assert (last in AgencyNames && !Tasker.Exists(w.state, last)) <==>
        (last in AgencyNames && !Tasker.Exists(s, last) && last !in init);
    }
  }

  /** The firing up to name `i` included is the firing before it, then
      `initiate` for name `i` on the queue it left. */
  lemma SweepAdvance(s: Tasker.State, limit: nat, names: seq<string>, i: nat, retries: int,
                     envsOf: string -> seq<BackendDownloader.Environment>,
                     before: Tasker.State, logged: seq<string>, accepted: seq<string>, log: seq<Update>)
    requires i < |names|
    requires SweepStep(s, limit, names[..i], retries, envsOf) == Sweep(before, logged, accepted)
    requires SweepLog(s, limit, names[..i], retries, envsOf) == log
    ensures var step := BackendDownloader.InitiateStep(before, limit, names[i], Some(retries), envsOf(names[i]));
      SweepStep(s, limit, names[..i + 1], retries, envsOf) ==
        Sweep(step.0, logged + (if step.1.Fail? then [step.1.error] else []),
              accepted + (if step.1.Pass? then [names[i]] else []))
    ensures SweepLog(s, limit, names[..i + 1], retries, envsOf) ==
      log + Tagged(names[i], BackendDownloader.InitiateLog(before, limit, names[i], Some(retries)))
  {
    assert names[..i + 1][..i] == names[..i];
  }

  lemma AppendAssoc(a: seq<Update>, b: seq<Update>, c: seq<Update>)
    ensures a + b + c == a + (b + c)
  {
  }

  class Scheduler {
    const tasks: seq<string>
    const scheduleRule: string
    const retries: int

    constructor(taskNames: seq<string>, rule: string, maxRetries: int)
      ensures tasks == taskNames && scheduleRule == rule && retries == maxRetries
    {
      tasks := taskNames;
      scheduleRule := rule;
      retries := maxRetries;
    }

    /** One firing: `initiate(agencyName, { retries })` for every name of
        `tasks`, in order; what a refusal throws is caught and logged. */
    method Run(tasker: Tasker.Tasker, downloader: BackendDownloader.Downloader,
               envsOf: string -> seq<BackendDownloader.Environment>) returns (logged: seq<string>)
      requires downloader.Valid()
      modifies tasker, downloader
      ensures var w := SweepStep(old(tasker.Snapshot()), tasker.limit, tasks, retries, envsOf);
        tasker.Snapshot() == w.state && logged == w.errors
      ensures downloader.emitted == old(downloader.emitted) + SweepLog(old(tasker.Snapshot()), tasker.limit, tasks, retries, envsOf)
      ensures downloader.agencies == old(downloader.agencies)
    {
      ghost var s := tasker.Snapshot();
      ghost var w := SweepStep(s, tasker.limit, tasks[..0], retries, envsOf);
      ghost var log := [];
      logged := [];
      var i := 0;
      while i < |tasks|
        invariant i <= |tasks|
        invariant w == SweepStep(s, tasker.limit, tasks[..i], retries, envsOf)
        invariant tasker.Snapshot() == w.state && logged == w.errors
        invariant log == SweepLog(s, tasker.limit, tasks[..i], retries, envsOf)
        invariant downloader.emitted == old(downloader.emitted) + log
        invariant downloader.agencies == old(downloader.agencies) && downloader.Valid()
      {
        var name := tasks[i];
        SweepAdvance(s, tasker.limit, tasks, i, retries, envsOf, w.state, w.errors, w.accepted, log);
        ghost var ups := Tagged(name, BackendDownloader.InitiateLog(w.state, tasker.limit, name, Some(retries)));
        var r := downloader.Initiate(tasker, name, Some(retries), envsOf(name));
        AppendAssoc(old(downloader.emitted), log, ups);
        if r.Fail? {
          logged := logged + [r.error];
        } else {
          assert logged + [] == logged;
        }
        w := SweepStep(s, tasker.limit, tasks[..i + 1], retries, envsOf);
        log := log + ups;
        i := i + 1;
      }
      assert tasks[..i] == tasks;
    }
  }
}
