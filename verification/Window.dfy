// Desktop notifications of finished jobs (gui/src/mainwindow.cpp). A job can
// finish before the reply that says what it is.
module Window {

  const RECOVERY := "Recovery OS session"

  datatype Event =
    | Started(id: string, operation: string)
    | Finished(id: string, success: bool, summary: string)
    | HoldTimer(id: string)

  datatype Note = Note(id: string, recovery: bool, success: bool, summary: string)

  datatype State = State(started: map<string, string>, held: map<string, (bool, string)>, notes: seq<Note>)

  const START := State(map[], map[], [])

  function Notified(s: State, id: string, success: bool, summary: string): State {
    var recovery := id in s.started && s.started[id] == RECOVERY;
    State(s.started - {id}, s.held, s.notes + [Note(id, recovery, success, summary)])
  }

  /** The finish held for `id`, if any, is sent. */
  function Released(s: State, id: string): State {
    if id in s.held then Notified(s.(held := s.held - {id}), id, s.held[id].0, s.held[id].1) else s
  }

  function Step(s: State, e: Event): State {
    match e
    case Started(id, operation) => Released(s.(started := s.started[id := operation]), id)
    case Finished(id, success, summary) =>
      if id in s.started then Notified(s, id, success, summary)
      else s.(held := s.held[id := (success, summary)])
    case HoldTimer(id) => Released(s, id)
  }

  function After(events: seq<Event>): State {
    if events == [] then START else Step(After(events[..|events| - 1]), events[|events| - 1])
  }

  class MainWindow {
    var startedJobs: map<string, string>
    var heldFinishes: map<string, (bool, string)>
    var notifications: seq<Note>

    constructor ()
      ensures Now() == START
    {
      startedJobs, heldFinishes, notifications := map[], map[], [];
    }

    ghost function Now(): State
      reads this
    {
      State(startedJobs, heldFinishes, notifications)
    }

    method NotifyJobFinished(id: string, success: bool, summary: string)
      modifies this
      ensures Now() == Notified(old(Now()), id, success, summary)
    {
      var recovery := id in startedJobs && startedJobs[id] == RECOVERY;
      startedJobs := startedJobs - {id};
      notifications := notifications + [Note(id, recovery, success, summary)];
    }

    method OnJobStarted(id: string, operation: string)
      modifies this
      ensures Now() == Step(old(Now()), Started(id, operation))
    {
      startedJobs := startedJobs[id := operation];
      OnHoldTimer(id);
    }

    method OnBackupFinished(id: string, success: bool, summary: string)
      modifies this
      ensures Now() == Step(old(Now()), Finished(id, success, summary))
    {
      if id !in startedJobs {
        heldFinishes := heldFinishes[id := (success, summary)];
        return;
      }
      NotifyJobFinished(id, success, summary);
    }

    /** What the hold timer does, and a late start reply. */
    method OnHoldTimer(id: string)
      modifies this
      ensures Now() == Released(old(Now()), id)
    {
      if id in heldFinishes {
        var held := heldFinishes[id];
        heldFinishes := heldFinishes - {id};
        NotifyJobFinished(id, held.0, held.1);
      }
    }
  }

  // ---------------------------------------------------------------------
  // What each job is owed.

  predicate HasStarted(events: seq<Event>, id: string) {
    exists k :: 0 <= k < |events| && events[k].Started? && events[k].id == id
  }

  predicate HasFinished(events: seq<Event>, id: string) {
    exists k :: 0 <= k < |events| && events[k].Finished? && events[k].id == id
  }

  /** The hold timer fired after the finish. */
  predicate TimedOut(events: seq<Event>, id: string) {
    exists k :: 0 <= k < |events| && events[k] == HoldTimer(id) && HasFinished(events[..k], id)
  }

  /** Ids are fresh: a job is started once and finishes once. Timers may fire
      whenever they like. */
  ghost predicate FreshIds(events: seq<Event>) {
    forall j, k :: 0 <= j < k < |events| && events[j].id == events[k].id ==>
      !(events[j].Started? && events[k].Started?) && !(events[j].Finished? && events[k].Finished?)
  }

  predicate Due(events: seq<Event>, id: string) {
    HasFinished(events, id) && (HasStarted(events, id) || TimedOut(events, id))
  }

  function NotesOf(notes: seq<Note>, id: string): seq<Note> {
    if notes == [] then []
    else NotesOf(notes[..|notes| - 1], id) + (if notes[|notes| - 1].id == id then [notes[|notes| - 1]] else [])
  }

  /** A note said what had been learned of the job by the time it was due. */
  ghost predicate SaysRightly(events: seq<Event>, note: Note) {
    Finished(note.id, note.success, note.summary) in events &&
    exists k :: 0 < k <= |events| && Due(events[..k], note.id) && !Due(events[..k - 1], note.id) &&
                (note.recovery <==> Started(note.id, RECOVERY) in events[..k])
  }

  lemma OneMoreEvent(before: seq<Event>, e: Event, id: string)
    ensures HasStarted(before + [e], id) <==> HasStarted(before, id) || (e.Started? && e.id == id)
    ensures HasFinished(before + [e], id) <==> HasFinished(before, id) || (e.Finished? && e.id == id)
    ensures TimedOut(before + [e], id) <==> TimedOut(before, id) || (e == HoldTimer(id) && HasFinished(before, id))
  {
    var events := before + [e];
    forall k | 0 <= k < |before| ensures events[k] == before[k] && events[..k] == before[..k] {}
    assert events[..|before|] == before;
    if HasStarted(before, id) {
      var k :| 0 <= k < |before| && before[k].Started? && before[k].id == id;
      assert events[k].Started?;
    }
    if HasFinished(before, id) {
      var k :| 0 <= k < |before| && before[k].Finished? && before[k].id == id;
      assert events[k].Finished?;
    }
    if TimedOut(before, id) {
      var k :| 0 <= k < |before| && before[k] == HoldTimer(id) && HasFinished(before[..k], id);
      assert events[k] == HoldTimer(id);
    }
    if e.id == id { assert events[|before|] == e; }
  }

  /** What is known of job `id` in state `s` after `events`. */
  ghost predicate Stands(events: seq<Event>, id: string, s: State) {
    (id in s.held <==> HasFinished(events, id) && !Due(events, id)) &&
    (id in s.held ==> Finished(id, s.held[id].0, s.held[id].1) in events) &&
    (!HasFinished(events, id) ==> (id in s.started <==> HasStarted(events, id))) &&
    (!HasFinished(events, id) && id in s.started ==> Started(id, s.started[id]) in events) &&
    (HasFinished(events, id) && !Due(events, id) ==> id !in s.started)
  }

  lemma OneOperation(events: seq<Event>, id: string, a: string, b: string)
    requires FreshIds(events) && Started(id, a) in events && Started(id, b) in events
    ensures a == b
  {
    var j :| 0 <= j < |events| && events[j] == Started(id, a);
    var k :| 0 <= k < |events| && events[k] == Started(id, b);
    assert j == k;
  }

  lemma OnceOnly(before: seq<Event>, e: Event)
    requires FreshIds(before + [e])
    ensures FreshIds(before)
    ensures e.Finished? ==> !HasFinished(before, e.id)
    ensures e.Started? ==> !HasStarted(before, e.id)
  {
    var events := before + [e];
    assert events[|before|] == e;
    forall k | 0 <= k < |before| ensures events[k] == before[k] {}
  }

  lemma {:induction false} StandsAfter(events: seq<Event>, id: string)
    requires FreshIds(events)
    ensures Stands(events, id, After(events))
  {
    if events == [] {
    } else {
      var n := |events| - 1;
      var before, e := events[..n], events[n];
      assert events == before + [e];
      OnceOnly(before, e);
      StandsAfter(before, id);
      OneMoreEvent(before, e, id);
      StandsStep(before, e, id, After(before));
    }
  }

  lemma StandsStep(before: seq<Event>, e: Event, id: string, s: State)
    requires FreshIds(before + [e]) && Stands(before, id, s)
    ensures Stands(before + [e], id, Step(s, e))
  {
    hide HasStarted, HasFinished, TimedOut, FreshIds;
    OnceOnly(before, e);
    OneMoreEvent(before, e, id);
    var events := before + [e];
    assert forall x :: x in events <==> x in before || x == e;
    if e.id == id {
      if e.Started? {
        StartedStands(before, e, id, s);
      } else if e.Finished? {
        FinishedStands(before, e, id, s);
      } else {
        TimerStands(before, e, id, s);
      }
    }
  }

  lemma StartedStands(before: seq<Event>, e: Event, id: string, s: State)
    requires FreshIds(before + [e]) && Stands(before, id, s) && e.Started? && e.id == id
    ensures Stands(before + [e], id, Step(s, e))
  {
    hide HasStarted, HasFinished, TimedOut, FreshIds;
    OnceOnly(before, e);
    OneMoreEvent(before, e, id);
    assert e in before + [e];
  }

  lemma FinishedStands(before: seq<Event>, e: Event, id: string, s: State)
    requires FreshIds(before + [e]) && Stands(before, id, s) && e.Finished? && e.id == id
    ensures Stands(before + [e], id, Step(s, e))
  {
    hide HasStarted, HasFinished, TimedOut, FreshIds;
    OnceOnly(before, e);
    OneMoreEvent(before, e, id);
    NotTimedOutYet(before, id);
    assert e in before + [e];
  }

  /** A hold timer counts only after a finish. */
  lemma NotTimedOutYet(events: seq<Event>, id: string)
    ensures TimedOut(events, id) ==> HasFinished(events, id)
  {
    if TimedOut(events, id) {
      var k :| 0 <= k < |events| && events[k] == HoldTimer(id) && HasFinished(events[..k], id);
      var j :| 0 <= j < |events[..k]| && events[..k][j].Finished? && events[..k][j].id == id;
      assert events[j].Finished?;
    }
  }

  lemma TimerStands(before: seq<Event>, e: Event, id: string, s: State)
    requires Stands(before, id, s) && e == HoldTimer(id)
    ensures Stands(before + [e], id, Step(s, e))
  {
    hide HasStarted, HasFinished, TimedOut;
    OneMoreEvent(before, e, id);
    assert forall x :: x in before + [e] <==> x in before || x == e;
  }

  // ---------------------------------------------------------------------

  lemma NotesOfOneMore(notes: seq<Note>, note: Note, id: string)
    ensures NotesOf(notes + [note], id) == NotesOf(notes, id) + (if note.id == id then [note] else [])
  {
    assert (notes + [note])[..|notes|] == notes;
  }

  lemma SaidRightlyStill(before: seq<Event>, e: Event, note: Note)
    requires SaysRightly(before, note)
    ensures SaysRightly(before + [e], note)
  {
    hide Due;
    var events := before + [e];
    var k :| 0 < k <= |before| && Due(before[..k], note.id) && !Due(before[..k - 1], note.id) &&
             (note.recovery <==> Started(note.id, RECOVERY) in before[..k]);
    assert events[..k] == before[..k] && events[..k - 1] == before[..k - 1];
  }

  /** A note is sent for `id` at the very step at which it becomes due. */
  lemma NoteWhenDue(before: seq<Event>, e: Event, id: string, s: State)
    requires FreshIds(before + [e]) && Stands(before, id, s)
    ensures var events := before + [e];
            var sent := NotesOf(Step(s, e).notes, id);
            if Due(events, id) && !Due(before, id)
            then exists note: Note ::
                   note.id == id && sent == NotesOf(s.notes, id) + [note] && SaysRightly(events, note)
            else sent == NotesOf(s.notes, id)
  {
    hide HasStarted, HasFinished, TimedOut, SaysRightly, FreshIds;
    OnceOnly(before, e);
    OneMoreEvent(before, e, id);
    var events, t := before + [e], Step(s, e);
    if t.notes != s.notes {
      var note := t.notes[|t.notes| - 1];
      assert t.notes == s.notes + [note] && note.id == e.id;
      NotesOfOneMore(s.notes, note, id);
      if e.id == id { FirstNoteIsRight(before, e, s, note); }
    } else if e.id == id {
      NothingSent(before, e, s);
    }
    if e.id != id { OtherJob(before, e, id); }
  }

  lemma OtherJob(before: seq<Event>, e: Event, id: string)
    requires e.id != id
    ensures Due(before + [e], id) <==> Due(before, id)
  {
    hide HasStarted, HasFinished, TimedOut;
    OneMoreEvent(before, e, id);
  }

  lemma NothingSent(before: seq<Event>, e: Event, s: State)
    requires FreshIds(before + [e]) && Stands(before, e.id, s) && Step(s, e).notes == s.notes
    ensures Due(before + [e], e.id) <==> Due(before, e.id)
  {
    hide HasStarted, HasFinished, TimedOut, FreshIds;
    OnceOnly(before, e);
    OneMoreEvent(before, e, e.id);
    NotTimedOutYet(before, e.id);
    assert forall note :: |s.notes + [note]| != |s.notes|;
  }

  lemma FirstNoteIsRight(before: seq<Event>, e: Event, s: State, note: Note)
    requires FreshIds(before + [e]) && Stands(before, e.id, s) && Step(s, e).notes == s.notes + [note]
    ensures Due(before + [e], e.id) && !Due(before, e.id) && note.id == e.id && SaysRightly(before + [e], note)
  {
    hide HasStarted, HasFinished, TimedOut, FreshIds;
    OnceOnly(before, e);
    OneMoreEvent(before, e, e.id);
    NotTimedOutYet(before, e.id);
    var events := before + [e];
    assert forall x :: x in events <==> x in before || x == e;
    assert (s.notes + [note])[|s.notes|] == note;
    assert events[..|events|] == events && events[..|events| - 1] == before;
    StartedIsIn(before, e.id);
    RecoveryRight(before, e, s, note);
    assert Due(events[..|events|], note.id);
  }

  lemma StartedIsIn(events: seq<Event>, id: string)
    ensures HasStarted(events, id) <==> exists operation :: Started(id, operation) in events
  {
    if HasStarted(events, id) {
      var k :| 0 <= k < |events| && events[k].Started? && events[k].id == id;
      assert Started(id, events[k].operation) in events;
    }
  }

  lemma RecoveryRight(before: seq<Event>, e: Event, s: State, note: Note)
    requires FreshIds(before + [e]) && Stands(before, e.id, s) && Step(s, e).notes == s.notes + [note]
    ensures note.recovery <==> Started(e.id, RECOVERY) in before + [e]
  {
    hide HasFinished, TimedOut, HasStarted;
    OnceOnly(before, e);
    StartedIsIn(before, e.id);
    var events := before + [e];
    assert forall x :: x in events <==> x in before || x == e;
    assert (s.notes + [note])[|s.notes|] == note;
    if Started(e.id, RECOVERY) in events && e.id in s.started && !e.Started? &&
       Started(e.id, s.started[e.id]) in before {
      OneOperation(events, e.id, RECOVERY, s.started[e.id]);
    }
  }

  /** Every finished job is notified of exactly once: as soon as it has both
      finished and been named, or its hold timer fires after the finish,
      whichever comes first. The note carries the finish's own outcome, and
      calls it a recovery session exactly when the start reply that said so
      had come by then. */
  lemma {:induction false} NotifiedExactlyOnce(events: seq<Event>, id: string)
    requires FreshIds(events)
    ensures var sent := NotesOf(After(events).notes, id);
            if Due(events, id) then |sent| == 1 && sent[0].id == id && SaysRightly(events, sent[0]) else sent == []
  {
    hide Due, SaysRightly, Stands, Step, FreshIds;
    if events == [] {
      NothingDue(id);
    } else {
      var n := |events| - 1;
      var before, e := events[..n], events[n];
      assert events == before + [e];
      OnceOnly(before, e);
      NotifiedExactlyOnce(before, id);
      StandsAfter(before, id);
      NoteWhenDue(before, e, id, After(before));
      StaysDue(before, e, id);
      if Due(before, id) { SaidRightlyStill(before, e, NotesOf(After(before).notes, id)[0]); }
    }
  }

  lemma NothingDue(id: string)
    ensures !Due([], id)
  {
  }

  lemma StaysDue(before: seq<Event>, e: Event, id: string)
    ensures Due(before, id) ==> Due(before + [e], id)
  {
    hide HasStarted, HasFinished, TimedOut;
    OneMoreEvent(before, e, id);
  }

  /** With the timer run out and no more to come, no finish is left held. */
  lemma NothingLeftHeld(events: seq<Event>, id: string)
    requires FreshIds(events)
    ensures id in After(events).held <==> HasFinished(events, id) && !HasStarted(events, id) && !TimedOut(events, id)
  {
    hide HasStarted, HasFinished, TimedOut, After;
    StandsAfter(events, id);
  }

  /** A start reply that comes after the hold timer leaves its entry behind. */
  lemma LateReplyStays(before: seq<Event>, id: string, operation: string)
    requires FreshIds(before + [Started(id, operation)]) && Due(before, id)
    ensures id in After(before + [Started(id, operation)]).started
  {
    hide HasStarted, HasFinished, TimedOut;
    var e := Started(id, operation);
    assert (before + [e])[..|before|] == before;
    OnceOnly(before, e);
    StandsAfter(before, id);
  }

  /** The start reply came after the hold timer had run out. */
  predicate CameLate(events: seq<Event>, id: string) {
    exists k :: 0 <= k < |events| && events[k].Started? && events[k].id == id && TimedOut(events[..k], id)
  }

  lemma OneMoreLate(before: seq<Event>, e: Event, id: string)
    ensures CameLate(before + [e], id) <==> CameLate(before, id) || (e.Started? && e.id == id && TimedOut(before, id))
    ensures CameLate(before, id) ==> HasStarted(before, id) && HasFinished(before, id)
  {
    hide TimedOut, HasFinished;
    var events := before + [e];
    forall k | 0 <= k < |before| ensures events[k] == before[k] && events[..k] == before[..k] {}
    assert events[..|before|] == before && events[|before|] == e;
    if CameLate(before, id) {
      var k :| 0 <= k < |before| && before[k].Started? && before[k].id == id && TimedOut(before[..k], id);
      assert events[k].Started?;
      NotTimedOutYet(before[..k], id);
      FinishedStays(before, k, id);
    }
  }

  lemma FinishedStays(events: seq<Event>, k: nat, id: string)
    requires k <= |events| && HasFinished(events[..k], id)
    ensures HasFinished(events, id)
  {
    var j :| 0 <= j < k && events[..k][j].Finished? && events[..k][j].id == id;
    assert events[j].Finished?;
  }

  /** A job is remembered exactly from its start reply until its finish is
      noted; only a reply that came late is remembered for good. */
  lemma {:induction false} RememberedExactly(events: seq<Event>, id: string)
    requires FreshIds(events)
    ensures id in After(events).started <==>
            HasStarted(events, id) && (!HasFinished(events, id) || CameLate(events, id))
  {
    hide HasStarted, HasFinished, TimedOut, FreshIds, CameLate;
    if events == [] {
      NothingSeen(id);
    } else {
      var n := |events| - 1;
      var before, e := events[..n], events[n];
      assert events == before + [e];
      OnceOnly(before, e);
      RememberedExactly(before, id);
      StandsAfter(before, id);
      OneMoreEvent(before, e, id);
      OneMoreLate(before, e, id);
      NotTimedOutYet(before, id);
    }
  }

  lemma NothingSeen(id: string)
    ensures !HasStarted([], id) && !HasFinished([], id) && !CameLate([], id)
  {
  }
}
