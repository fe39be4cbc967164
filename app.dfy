// The timer's state in App.tsx and the handlers that drive it. Each
// handler reads the state, applies one of the value transforms of
// SessionEdits or History, and writes the new state back; the sync to the
// server, the toasts and the audio around it are not modelled.
module AppState {
  import opened Types
  import opened Metrics
  import opened SessionEdits
  import opened History
  import StatsDashboard

  class App {
    var status: TimerStatus
    var currentSession: Option<Session>
    var sessionHistory: seq<Session>
    var taskNameInput: string
    var activeGroupId: string
    var historyDateRange: StatsDashboard.CustomRange

    /**
     * The timer's status and its current session agree: no session when
     * idle, a ticking one when running, a still one when paused or stopped.
     */
    predicate Consistent()
      reads this
    {
      (status == Idle ==> currentSession.None?)
      && (status == Running ==> currentSession.Some? && currentSession.value.isActive)
      && ((status == Paused || status == Stopped) && currentSession.Some? ==> !currentSession.value.isActive)
    }

    /**
     * The state as it is loaded: the saved status or 'idle', the saved
     * history and session, the first saved group (or '1') as the active
     * group, and the saved session's name in the name field.
     */
    constructor (savedStatus: Option<TimerStatus>, savedHistory: seq<Session>, savedSession: Option<Session>,
                 savedGroupIds: seq<string>)
      ensures status == if savedStatus.Some? then savedStatus.value else Idle
      ensures sessionHistory == savedHistory && currentSession == savedSession
      ensures activeGroupId == if |savedGroupIds| > 0 then savedGroupIds[0] else "1"
      ensures taskNameInput == if savedSession.Some? then savedSession.value.name else ""
      ensures historyDateRange == StatsDashboard.CustomRange("", "")
    {
      status := if savedStatus.Some? then savedStatus.value else Idle;
      sessionHistory := savedHistory;
      currentSession := savedSession;
      activeGroupId := if |savedGroupIds| > 0 then savedGroupIds[0] else "1";
      taskNameInput := if savedSession.Some? then savedSession.value.name else "";
      historyDateRange := StatsDashboard.CustomRange("", "");
    }

    /**
     * handleStart: from idle (or from pause or stop with no session) a new
     * session under the auto name; from pause or stop the current session
     * resumed; while running nothing happens.
     */
    method Start(now: int, newId: string)
      modifies this
      ensures old(status) == Running ==>
        status == Running && currentSession == old(currentSession) && taskNameInput == old(taskNameInput)
      ensures old(status) != Running ==> status == Running && Consistent()
      ensures old(status) == Idle || (old(status) != Running && old(currentSession).None?) ==>
        taskNameInput == StartName(old(taskNameInput), old(sessionHistory))
        && currentSession == Some(NewSession(newId, taskNameInput, old(activeGroupId), now))
      ensures old(status) != Idle && old(status) != Running && old(currentSession).Some? ==>
        currentSession == Some(Resumed(old(currentSession).value, now)) && taskNameInput == old(taskNameInput)
      ensures sessionHistory == old(sessionHistory) && activeGroupId == old(activeGroupId)
      ensures historyDateRange == old(historyDateRange)
    {
      var newSession: Session;
      if status == Idle || ((status == Paused || status == Stopped) && currentSession.None?) {
        var taskName := AutoName(taskNameInput, sessionHistory);
        newSession := NewSession(newId, taskName, activeGroupId, now);
        taskNameInput := taskName;
      } else if (status == Paused || status == Stopped) && currentSession.Some? {
        newSession := Resumed(currentSession.value, now);
      } else {
        return;
      }
      currentSession := Some(newSession);
      status := Running;
    }

    /** handlePause: only while running with a session, which stops ticking and has its last segment closed. */
    method Pause(now: int)
      modifies this
      ensures old(status) == Running && old(currentSession).Some? ==>
        var s := old(currentSession).value;
        status == Paused && currentSession == Some(s.(isActive := false, segments := PauseSegments(s.segments, now)))
      ensures !(old(status) == Running && old(currentSession).Some?) ==>
        status == old(status) && currentSession == old(currentSession)
      ensures old(Consistent()) ==> Consistent()
      ensures sessionHistory == old(sessionHistory) && taskNameInput == old(taskNameInput)
      ensures activeGroupId == old(activeGroupId) && historyDateRange == old(historyDateRange)
    {
      if status == Running && currentSession.Some? {
        var s := currentSession.value;
        currentSession := Some(s.(isActive := false, segments := PauseSegments(s.segments, now)));
        status := Paused;
      }
    }

    /**
     * handleStopWithoutBreak: nothing when idle; otherwise the session (if
     * any) stops ticking with its last segment marked hard-stop, and the
     * status becomes 'stopped'.
     */
    method StopWithoutBreak(now: int)
      modifies this
      ensures old(status) == Idle ==> status == Idle && currentSession == old(currentSession)
      ensures old(status) != Idle ==> status == Stopped
      ensures old(status) != Idle && old(currentSession).Some? ==>
        var s := old(currentSession).value;
        currentSession == Some(s.(isActive := false, segments := HardStopSegments(s.segments, old(status), now)))
      ensures old(currentSession).None? ==> currentSession.None?
      ensures old(Consistent()) ==> Consistent()
      ensures sessionHistory == old(sessionHistory) && taskNameInput == old(taskNameInput)
      ensures activeGroupId == old(activeGroupId) && historyDateRange == old(historyDateRange)
    {
      if status == Idle {
        return;
      }
      if currentSession.Some? {
        var s := currentSession.value;
        currentSession := Some(s.(isActive := false, segments := HardStopSegments(s.segments, status, now)));
      }
      status := Stopped;
    }

    /**
     * completeSessionProcess: the current session, archived with the given
     * completion status, goes to the front of the history; the timer is idle.
     */
    method CompleteSession(completionStatus: CompletionStatus, now: int)
      modifies this
      ensures old(currentSession).Some? ==>
        sessionHistory == [Archived(old(currentSession).value, old(status), completionStatus, now)] + old(sessionHistory)
        && currentSession.None? && status == Idle && taskNameInput == ""
      ensures old(currentSession).None? ==>
        sessionHistory == old(sessionHistory) && status == old(status) && currentSession.None?
        && taskNameInput == old(taskNameInput)
      ensures old(Consistent()) ==> Consistent()
      ensures activeGroupId == old(activeGroupId) && historyDateRange == old(historyDateRange)
    {
      if currentSession.None? {
        return;
      }
      var finishedSession := Archived(currentSession.value, status, completionStatus, now);
      sessionHistory := [finishedSession] + sessionHistory;
      currentSession := None;
      status := Idle;
      taskNameInput := "";
    }

    /**
     * handleContinueSession: only when idle and the session is in the
     * history. On another work day the old session is marked completed and a
     * continuation starts; on the same work day the session leaves the
     * history and is reopened.
     */
    method ContinueSession(id: string, now: int, newId: string, dayStartHour: int, tz: int)
      modifies this
      ensures old(status) != Idle || FindById(old(sessionHistory), id).None? ==> unchanged(this)
      ensures old(status) == Idle && FindById(old(sessionHistory), id).Some? ==>
        var prev := FindById(old(sessionHistory), id).value;
        status == Running && Consistent()
        && (AdjustedDay(prev.createdAt, tz, dayStartHour) != AdjustedDay(now, tz, dayStartHour) ==>
              sessionHistory == ReplaceById(old(sessionHistory), id, prev.(completionStatus := Some(Completed)))
              && currentSession == Some(Continuation(prev, newId, now)))
        && (AdjustedDay(prev.createdAt, tz, dayStartHour) == AdjustedDay(now, tz, dayStartHour) ==>
              sessionHistory == RemoveById(old(sessionHistory), id) && currentSession == Some(Reopened(prev, now)))
        && taskNameInput == currentSession.value.name && activeGroupId == currentSession.value.groupId
      ensures historyDateRange == old(historyDateRange)
    {
      if status == Running || status == Paused || status == Stopped {
        return;
      }
      var found := FindById(sessionHistory, id);
      if found.None? {
        return;
      }
      var sessionToResume := found.value;
      var newSession: Session;
      if AdjustedDay(sessionToResume.createdAt, tz, dayStartHour) != AdjustedDay(now, tz, dayStartHour) {
        var updatedOldSession := sessionToResume.(completionStatus := Some(Completed));
        sessionHistory := ReplaceById(sessionHistory, id, updatedOldSession);
        newSession := Continuation(sessionToResume, newId, now);
      } else {
        sessionHistory := RemoveById(sessionHistory, id);
        newSession := Reopened(sessionToResume, now);
      }
      currentSession := Some(newSession);
      taskNameInput := newSession.name;
      activeGroupId := newSession.groupId;
      status := Running;
    }

    /** handleRemoveHold: the history session is marked completed. */
    method RemoveHold(id: string)
      modifies this
      ensures sessionHistory == match FindById(old(sessionHistory), id)
                                case Some(s) => ReplaceById(old(sessionHistory), id, s.(completionStatus := Some(Completed)))
                                case None => old(sessionHistory)
      ensures status == old(status) && currentSession == old(currentSession)
      ensures taskNameInput == old(taskNameInput) && activeGroupId == old(activeGroupId)
      ensures historyDateRange == old(historyDateRange)
    {
      var updated := FindById(sessionHistory, id);
      if updated.Some? {
        sessionHistory := ReplaceById(sessionHistory, id, updated.value.(completionStatus := Some(Completed)));
      }
    }

    /**
     * handleDeleteRequest: the current session is dropped unless the timer
     * is running or paused; a history session is moved to the trash.
     */
    method DeleteRequest(id: string, now: int)
      modifies this
      ensures old(currentSession).Some? && old(currentSession).value.id == id ==>
        sessionHistory == old(sessionHistory)
        && (old(status) == Running || old(status) == Paused ==>
              status == old(status) && currentSession == old(currentSession))
        && (old(status) != Running && old(status) != Paused ==> status == Idle && currentSession.None?)
      ensures !(old(currentSession).Some? && old(currentSession).value.id == id) ==>
        status == old(status) && currentSession == old(currentSession)
        && sessionHistory == match FindById(old(sessionHistory), id)
                             case Some(s) => ReplaceById(old(sessionHistory), id, s.(deletedAt := Some(now)))
                             case None => old(sessionHistory)
      ensures old(Consistent()) ==> Consistent()
      ensures taskNameInput == old(taskNameInput) && activeGroupId == old(activeGroupId)
      ensures historyDateRange == old(historyDateRange)
    {
      if currentSession.Some? && currentSession.value.id == id {
        if status == Running || status == Paused {
          return;
        }
        currentSession := None;
        status := Idle;
      } else {
        var session := FindById(sessionHistory, id);
        if session.Some? {
          sessionHistory := ReplaceById(sessionHistory, id, session.value.(deletedAt := Some(now)));
        }
      }
    }

    /** The session a segment handler edits: the current one when the id matches, else the history's. */
    function Target(sessionId: string): Option<Session>
      reads this
    {
      if currentSession.Some? && currentSession.value.id == sessionId then currentSession
      else FindById(sessionHistory, sessionId)
    }

    /**
     * handleDeleteSegment: the segment goes to the trash. When it was the
     * last live work segment, the current session is dropped (idle) or the
     * history session goes to the trash as well.
     */
    method DeleteSegment(sessionId: string, segmentIndex: nat, now: int)
      modifies this
      requires Target(sessionId).Some? ==> segmentIndex < |Target(sessionId).value.segments|
      ensures old(Target(sessionId)).None? ==>
        status == old(status) && currentSession == old(currentSession) && sessionHistory == old(sessionHistory)
      ensures old(currentSession).Some? && old(currentSession).value.id == sessionId ==>
        var s := old(currentSession).value;
        sessionHistory == old(sessionHistory)
        && (IsLastOne(s.segments, segmentIndex) ==> currentSession.None? && status == Idle)
        && (!IsLastOne(s.segments, segmentIndex) ==>
              currentSession == Some(s.(segments := TrashSegment(s.segments, segmentIndex, now))) && status == old(status))
      ensures !(old(currentSession).Some? && old(currentSession).value.id == sessionId) && old(Target(sessionId)).Some? ==>
        var s := old(Target(sessionId)).value;
        var updated := s.(segments := TrashSegment(s.segments, segmentIndex, now));
        status == old(status) && currentSession == old(currentSession)
        && sessionHistory == ReplaceById(old(sessionHistory), sessionId,
             if IsLastOne(s.segments, segmentIndex) then updated.(deletedAt := Some(now)) else updated)
      ensures old(Consistent()) ==> Consistent()
      ensures taskNameInput == old(taskNameInput) && activeGroupId == old(activeGroupId)
      ensures historyDateRange == old(historyDateRange)
    {
      var isCurrent := currentSession.Some? && currentSession.value.id == sessionId;
      var session := if isCurrent then currentSession else FindById(sessionHistory, sessionId);
      if session.None? {
        return;
      }
      var s := session.value;
      var isLastOne := IsLastOne(s.segments, segmentIndex);
      var updatedSession := s.(segments := TrashSegment(s.segments, segmentIndex, now));
      if isCurrent {
        if isLastOne {
          currentSession := None;
          status := Idle;
        } else {
          currentSession := Some(updatedSession);
        }
      } else {
        if isLastOne {
          updatedSession := updatedSession.(deletedAt := Some(now));
        }
        sessionHistory := ReplaceById(sessionHistory, sessionId, updatedSession);
      }
    }

    /** handleDeleteBreak: the gap's marker is filed into the session's segments. */
    method DeleteBreak(start: int, end: int, sessionId: string, now: int)
      modifies this
      ensures old(Target(sessionId)).Some? ==>
        var s := old(Target(sessionId)).value;
        var updated := s.(segments := SessionEdits.DeleteBreak(s.segments, start, end, now));
        if old(currentSession).Some? && old(currentSession).value.id == sessionId
        then currentSession == Some(updated) && sessionHistory == old(sessionHistory)
        else currentSession == old(currentSession) && sessionHistory == ReplaceById(old(sessionHistory), sessionId, updated)
      ensures old(Target(sessionId)).None? ==>
        currentSession == old(currentSession) && sessionHistory == old(sessionHistory)
      ensures status == old(status) && (old(Consistent()) ==> Consistent())
      ensures taskNameInput == old(taskNameInput) && activeGroupId == old(activeGroupId)
      ensures historyDateRange == old(historyDateRange)
    {
      if currentSession.Some? && currentSession.value.id == sessionId {
        var cur := currentSession.value;
        currentSession := Some(cur.(segments := SessionEdits.DeleteBreak(cur.segments, start, end, now)));
      } else {
        var session := FindById(sessionHistory, sessionId);
        if session.Some? {
          var updated := session.value.(segments := SessionEdits.DeleteBreak(session.value.segments, start, end, now));
          sessionHistory := ReplaceById(sessionHistory, sessionId, updated);
        }
      }
    }

    /** handleRestoreSegment: the segment leaves the trash (a gap marker leaves the list). */
    method RestoreSegment(sessionId: string, segmentIndex: nat)
      modifies this
      requires Target(sessionId).Some? ==> segmentIndex < |Target(sessionId).value.segments|
      ensures old(Target(sessionId)).Some? ==>
        var s := old(Target(sessionId)).value;
        var updated := s.(segments := SessionEdits.RestoreSegment(s.segments, segmentIndex));
        if old(currentSession).Some? && old(currentSession).value.id == sessionId
        then currentSession == Some(updated) && sessionHistory == old(sessionHistory)
        else currentSession == old(currentSession) && sessionHistory == ReplaceById(old(sessionHistory), sessionId, updated)
      ensures old(Target(sessionId)).None? ==>
        currentSession == old(currentSession) && sessionHistory == old(sessionHistory)
      ensures status == old(status) && (old(Consistent()) ==> Consistent())
      ensures taskNameInput == old(taskNameInput) && activeGroupId == old(activeGroupId)
      ensures historyDateRange == old(historyDateRange)
    {
      if currentSession.Some? && currentSession.value.id == sessionId {
        var cur := currentSession.value;
        currentSession := Some(cur.(segments := SessionEdits.RestoreSegment(cur.segments, segmentIndex)));
      } else {
        var session := FindById(sessionHistory, sessionId);
        if session.Some? {
          var updated := session.value.(segments := SessionEdits.RestoreSegment(session.value.segments, segmentIndex));
          sessionHistory := ReplaceById(sessionHistory, sessionId, updated);
        }
      }
    }

    /** restoreSession: the history session leaves the trash. */
    method RestoreSession(id: string)
      modifies this
      ensures sessionHistory == match FindById(old(sessionHistory), id)
                                case Some(s) => ReplaceById(old(sessionHistory), id, s.(deletedAt := None))
                                case None => old(sessionHistory)
      ensures status == old(status) && currentSession == old(currentSession)
      ensures taskNameInput == old(taskNameInput) && activeGroupId == old(activeGroupId)
      ensures historyDateRange == old(historyDateRange)
    {
      var session := FindById(sessionHistory, id);
      if session.Some? {
        sessionHistory := ReplaceById(sessionHistory, id, session.value.(deletedAt := None));
      }
    }

    /** permanentDeleteSession: every session with that id leaves the history. */
    method PermanentDeleteSession(id: string)
      modifies this
      ensures sessionHistory == RemoveById(old(sessionHistory), id)
      ensures status == old(status) && currentSession == old(currentSession)
      ensures taskNameInput == old(taskNameInput) && activeGroupId == old(activeGroupId)
      ensures historyDateRange == old(historyDateRange)
    {
      sessionHistory := RemoveById(sessionHistory, id);
    }

    /** emptyTrash: only the sessions outside the trash are kept. */
    method EmptyTrash()
      modifies this
      ensures sessionHistory == ActiveOf(old(sessionHistory))
      ensures status == old(status) && currentSession == old(currentSession)
      ensures taskNameInput == old(taskNameInput) && activeGroupId == old(activeGroupId)
      ensures historyDateRange == old(historyDateRange)
    {
      sessionHistory := ActiveOf(sessionHistory);
    }

    /** handleCalendarDayClick: the history's date range follows the same two-click rule as the dashboard's. */
    method CalendarDayClick(dateStr: string)
      modifies this
      ensures historyDateRange == StatsDashboard.RangeSelect(old(historyDateRange), dateStr)
      ensures status == old(status) && currentSession == old(currentSession) && sessionHistory == old(sessionHistory)
      ensures taskNameInput == old(taskNameInput) && activeGroupId == old(activeGroupId)
    {
      historyDateRange := StatsDashboard.RangeSelect(historyDateRange, dateStr);
    }
  }
}
