// The backup panel's own job, while other jobs come and go
// (gui/src/backuppanel.cpp).
module Panel {

  const BACKUP_RUN := "BackupRun"

  datatype Event =
    | JobStarted(id: string, operation: string)
    | JobFinished(id: string)
    | ErrorOccurred(operation: string)

  /** `id` is empty until the job is named. */
  datatype State = State(running: bool, id: string, early: set<string>)

  const IDLE := State(false, "", {})

  /** Just after the call that starts a backup. */
  const CALLED := State(true, "", {})

  function Step(s: State, e: Event): State {
    match e
    case JobStarted(id, operation) =>
      if !(s.running && s.id == "" && operation == BACKUP_RUN) then s
      else if id in s.early then IDLE
      else s.(id := id)
    case JobFinished(id) =>
      if !s.running then s
      else if s.id == "" then s.(early := s.early + {id})
      else if id == s.id then IDLE
      else s
    case ErrorOccurred(operation) =>
      if s.running && s.id == "" && operation == BACKUP_RUN then IDLE else s
  }

  function After(s: State, events: seq<Event>): State {
    if events == [] then s else Step(After(s, events[..|events| - 1]), events[|events| - 1])
  }

  class BackupPanel {
    var jobRunning: bool
    var jobId: string
    var earlyFinished: set<string>

    constructor ()
      ensures Now() == IDLE
    {
      jobRunning, jobId, earlyFinished := false, "", {};
    }

    ghost function Now(): State
      reads this
    {
      State(jobRunning, jobId, earlyFinished)
    }

    method JobEnded()
      modifies this
      ensures Now() == IDLE
    {
      jobRunning, jobId, earlyFinished := false, "", {};
    }

    /** `something` is ticked: a source, a target and a step that runs btrbk. */
    method RunBackup(something: bool) returns (called: bool)
      modifies this
      ensures called == something
      ensures Now() == if something then CALLED else old(Now())
    {
      if !something { return false; }
      jobRunning, jobId, earlyFinished := true, "", {};
      return true;
    }

    method OnJobStarted(id: string, operation: string)
      modifies this
      ensures Now() == Step(old(Now()), JobStarted(id, operation))
    {
      if !(jobRunning && jobId == "" && operation == BACKUP_RUN) { return; }
      if id in earlyFinished {
        JobEnded();
      } else {
        jobId := id;
      }
    }

    method OnJobFinished(id: string)
      modifies this
      ensures Now() == Step(old(Now()), JobFinished(id))
    {
      if !jobRunning { return; }
      if jobId == "" {
        earlyFinished := earlyFinished + {id};
      } else if id == jobId {
        JobEnded();
      }
    }

    method OnErrorOccurred(operation: string)
      modifies this
      ensures Now() == Step(old(Now()), ErrorOccurred(operation))
    {
      if jobRunning && jobId == "" && operation == BACKUP_RUN { JobEnded(); }
    }
  }

  // ---------------------------------------------------------------------
  // What may happen between one call and the next.

  predicate Named(events: seq<Event>, own: string) { JobStarted(own, BACKUP_RUN) in events }

  predicate Finished(events: seq<Event>, own: string) { JobFinished(own) in events }

  predicate Failed(events: seq<Event>) { ErrorOccurred(BACKUP_RUN) in events }

  /** The call is answered at most once, by a start that names `own` or by an
      error; only this panel makes such calls. Anything else may happen, in
      any order, as often as it likes. */
  ghost predicate OneReply(events: seq<Event>, own: string) {
    own != "" && !(Named(events, own) && Failed(events)) &&
    forall e :: e in events && e.JobStarted? && e.operation == BACKUP_RUN ==> e.id == own
  }

  predicate Over(events: seq<Event>, own: string) {
    Failed(events) || (Named(events, own) && Finished(events, own))
  }

  lemma OneReplyBefore(events: seq<Event>, own: string)
    requires events != [] && OneReply(events, own)
    ensures OneReply(events[..|events| - 1], own)
  {
    var before := events[..|events| - 1];
    assert forall e :: e in before ==> e in events;
  }

  /** Exactly where the panel stands after any events. */
  lemma {:induction false} WhereItStands(events: seq<Event>, own: string)
    requires OneReply(events, own)
    ensures var s := After(CALLED, events);
            if Over(events, own) then s == IDLE
            else s.running && s.id == (if Named(events, own) then own else "") &&
                 (!Named(events, own) ==> (own in s.early <==> Finished(events, own)))
  {
    if events != [] {
      var n := |events| - 1;
      var before, e := events[..n], events[n];
      OneReplyBefore(events, own);
      WhereItStands(before, own);
      assert events == before + [e];
      assert forall x :: x in events <==> x in before || x == e;
    }
  }

  /** The panel is running exactly until its own job has been both named and
      finished, in whichever order, or its call has failed; whatever other
      jobs start, finish or fail meanwhile. With no answer it stays running. */
  lemma RunsUntilItsOwnJobEnds(events: seq<Event>, own: string)
    requires OneReply(events, own)
    ensures After(CALLED, events).running <==> !Over(events, own)
  {
    WhereItStands(events, own);
  }

  /** Once over it stays over, until the next call. */
  lemma {:induction false} StaysIdle(events: seq<Event>)
    ensures After(IDLE, events) == IDLE
  {
    if events != [] { StaysIdle(events[..|events| - 1]); }
  }

  /** Once it knows its job, nothing but that job's end moves it: no other
      start, finish or failure, of whatever kind and whoever asked for it. */
  lemma {:induction false} WaitsForItsJob(s: State, events: seq<Event>)
    requires s.running && s.id != ""
    ensures After(s, events) == if Finished(events, s.id) then IDLE else s
  {
    if events != [] {
      var n := |events| - 1;
      WaitsForItsJob(s, events[..n]);
      assert events == events[..n] + [events[n]];
      assert forall x :: x in events <==> x in events[..n] || x == events[n];
    }
  }
}
