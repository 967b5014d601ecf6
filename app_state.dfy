/**
 * The app's state: the session phase (the state machine's only source of
 * truth), the notification log the user sees and the badge counter.
 * Timestamps are integer seconds; UUIDs are opaque natural numbers.
 */
module Domain {
  import opened NotificationLog

  type Uuid = nat

  /** A running session; `elapsedSeconds` is the cached value the tick refreshes. */
  datatype DisconnectSession = DisconnectSession(id: Uuid, startedAt: int, elapsedSeconds: int)

  /** What is left of a finished session. */
  datatype AftermathSummary = AftermathSummary(sessionId: Uuid, startedAt: int, endedAt: int, totalSeconds: int)

  datatype AppPhase =
    | Idle
    | Disconnecting(session: DisconnectSession)
    | Aftermath(summary: AftermathSummary)

  /** `isDisconnecting`: the phase carries a running session. */
  predicate IsDisconnecting(phase: AppPhase) {
    match phase
    case Disconnecting(_) => true
    case _ => false
  }

  /** Exactly the disconnecting phase counts as disconnecting. */
  lemma IsDisconnectingExactly(phase: AppPhase)
    ensures IsDisconnecting(phase) <==> exists s :: phase == Disconnecting(s)
    ensures !IsDisconnecting(phase) <==> phase == Idle || exists a :: phase == Aftermath(a)
  {
    if phase.Disconnecting? {
      assert phase == Disconnecting(phase.session);
    } else if phase.Aftermath? {
      assert phase == Aftermath(phase.summary);
    }
  }

  class AppState {
    var phase: AppPhase
    var notificationLog: seq<Entry>
    /** The badge counter: bumped by `appendNotification`, never reset by the state itself. */
    var badgeCount: int

    constructor ()
      ensures phase == Idle && notificationLog == [] && badgeCount == 0
    {
      phase := Idle;
      notificationLog := [];
      badgeCount := 0;
    }

    /** The unread count shown on the notifications button. */
    function UnreadCount(): nat
      reads this
    {
      CountUnread(notificationLog)
    }

    /** Sets the read flag of the first entry with `id`; nothing happens for an unknown id. */
    method MarkNotificationRead(id: string)
      modifies this
      ensures notificationLog == MarkedRead(old(notificationLog), id)
      ensures phase == old(phase) && badgeCount == old(badgeCount)
    {
      var found := FirstIndex(notificationLog, id);
      if found.None? {
        return;
      }
      var idx := found.value;
      notificationLog := notificationLog[idx := notificationLog[idx].(isRead := true)];
    }

    /** Puts `entry` at the head of the log and bumps the badge by one. */
    method AppendNotification(entry: Entry)
      modifies this
      ensures notificationLog == [entry] + old(notificationLog)
      ensures badgeCount == old(badgeCount) + 1
      ensures phase == old(phase)
    {
      notificationLog := [entry] + notificationLog;
      badgeCount := badgeCount + 1;
    }

    /** A new session keeps the log and the badge (the residue rule): nothing changes. */
    method ResetForNewDisconnect()
      ensures phase == old(phase) && notificationLog == old(notificationLog) && badgeCount == old(badgeCount)
    {
    }
  }
}
