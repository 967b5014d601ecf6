/**
 * The disconnect controller: the session state machine (idle, disconnecting,
 * aftermath) and the orchestration around it. It starts and stops the
 * one-second timer, asks for notification permission once, (re)schedules the
 * reminder batch, and forwards notification observations to the log store,
 * mirroring the log into the app state and the unread count onto the badge.
 *
 * Clock readings and fresh session UUIDs are parameters. The repeating timer
 * is a flag plus an explicit `Tick(now)`; the notification centre's
 * permission prompt and badge are ghost records of the requests made.
 */
module Controller {
  import opened Wrappers
  import opened Domain
  import opened NotificationLog
  import opened Copy
  import opened Scheduler

  // ---------------------------------------------------------------------------
  // The state machine on phase values

  /** The phase `startDisconnect` enters, whatever the phase was: a fresh session at zero. */
  function StartedPhase(sessionId: Uuid, now: int): AppPhase {
    Disconnecting(DisconnectSession(sessionId, now, 0))
  }

  /** The phase after a timer tick at `now`. */
  function TickedPhase(phase: AppPhase, now: int): AppPhase {
    match phase
    case Disconnecting(s) => Disconnecting(s.(elapsedSeconds := Max(0, now - s.startedAt)))
    case _ => phase
  }

  /** The phase after `stopDisconnect` at `now`. */
  function StoppedPhase(phase: AppPhase, now: int): AppPhase {
    match phase
    case Disconnecting(s) => Aftermath(AftermathSummary(s.id, s.startedAt, now, Max(0, now - s.startedAt)))
    case _ => phase
  }

  /**
   * A session just started keeps its identity and start through its ticks;
   * a tick at `t` shows the seconds since the start, never negative.
   */
  lemma StartedThenTicked(sessionId: Uuid, now: int, t: int)
    ensures var p := TickedPhase(StartedPhase(sessionId, now), t);
            IsDisconnecting(p) && p.session.id == sessionId && p.session.startedAt == now &&
            p.session.elapsedSeconds == (if t >= now then t - now else 0)
  {
  }

  /** A tick outside a session changes nothing. */
  lemma TickOutsideSessionIsNoop(phase: AppPhase, now: int)
    requires !IsDisconnecting(phase)
    ensures TickedPhase(phase, now) == phase
  {
  }

  /**
   * A tick inside a session keeps the session's identity and start, and sets
   * the elapsed seconds to the clock distance from the start, never negative.
   */
  lemma TickRefreshesElapsed(phase: AppPhase, now: int)
    requires IsDisconnecting(phase)
    ensures var p := TickedPhase(phase, now);
            IsDisconnecting(p) && p.session.id == phase.session.id &&
            p.session.startedAt == phase.session.startedAt &&
            p.session.elapsedSeconds >= 0 &&
            (now >= phase.session.startedAt ==> p.session.elapsedSeconds == now - phase.session.startedAt) &&
            (now < phase.session.startedAt ==> p.session.elapsedSeconds == 0)
  {
  }

  /** With a clock that does not go backwards, the elapsed seconds never decrease from tick to tick. */
  lemma TicksNeverDecrease(phase: AppPhase, now1: int, now2: int)
    requires IsDisconnecting(phase) && now1 <= now2
    ensures var p1 := TickedPhase(phase, now1);
            var p2 := TickedPhase(p1, now2);
            IsDisconnecting(p2) && p1.session.elapsedSeconds <= p2.session.elapsedSeconds
  {
  }

  /** Stopping outside a session leaves the phase as it is. */
  lemma StopOutsideSessionIsNoop(phase: AppPhase, now: int)
    requires !IsDisconnecting(phase)
    ensures StoppedPhase(phase, now) == phase
  {
  }

  /**
   * Stopping a session gives its aftermath: same session id and start, the
   * stop time as end, and the wall-clock length, never negative (not the last
   * ticked value).
   */
  lemma StopSummarises(phase: AppPhase, now: int)
    requires IsDisconnecting(phase)
    ensures var p := StoppedPhase(phase, now);
            p.Aftermath? && p.summary.sessionId == phase.session.id &&
            p.summary.startedAt == phase.session.startedAt && p.summary.endedAt == now &&
            p.summary.totalSeconds >= 0 &&
            (now >= phase.session.startedAt ==> p.summary.totalSeconds == now - phase.session.startedAt)
  {
  }

  /** A session started at `t0` and stopped 125 seconds later lasted 125 seconds. */
  lemma StopAfter125Seconds(sessionId: Uuid, t0: int)
    ensures StoppedPhase(StartedPhase(sessionId, t0), t0 + 125).summary.totalSeconds == 125
  {
  }

  /** The total of a stopped session does not depend on how many ticks happened in between. */
  lemma TicksDoNotAffectTotal(phase: AppPhase, tick: int, now: int)
    requires IsDisconnecting(phase)
    ensures StoppedPhase(TickedPhase(phase, tick), now) == StoppedPhase(phase, now)
  {
  }

  /**
   * The badge values a resync pushes: after each replayed delivery, the
   * unread count of the log so far.
   */
  function ReplayBadges(entries: seq<Entry>, delivered: seq<Delivery>, now: int): (badges: seq<nat>)
    ensures |badges| == |delivered|
    decreases |delivered|
  {
    if delivered == [] then []
    else ReplayBadges(entries, delivered[..|delivered| - 1], now) + [CountUnread(Replayed(entries, delivered, now))]
  }

  // ---------------------------------------------------------------------------
  // The controller

  class DisconnectController {
    const state: AppState
    const scheduler: NotificationScheduler
    const logStore: LogStore

    /** Whether a repeating one-second timer is installed (`timer != nil`). */
    var timerRunning: bool
    /** How many installed timers have not been invalidated. */
    ghost var liveTimers: nat
    var hasRequestedNotificationAuth: bool
    /** How many times notification permission was asked for. */
    ghost var authRequests: nat
    /** Every value pushed to the app icon badge, oldest first. */
    ghost var pushedBadges: seq<nat>

    /**
     * The controller's invariant: the app state mirrors the log store, at
     * most one timer runs and only while the flag says so, permission is
     * asked for at most once, and the badge shows the store's unread count.
     */
    ghost predicate Valid()
      reads this, state, logStore, scheduler
    {
      state.notificationLog == logStore.entries &&
      liveTimers == (if timerRunning then 1 else 0) &&
      authRequests == (if hasRequestedNotificationAuth then 1 else 0) &&
      |pushedBadges| > 0 && pushedBadges[|pushedBadges| - 1] == logStore.UnreadCount() &&
      scheduler.config.maxScheduled >= 0
    }

    /**
     * Starts from the given phase and badge counter, takes over the shared
     * log store and shows its log. The unread count reaches the badge twice:
     * once directly and once when the store's publisher delivers its current
     * log to the subscription. The scheduler uses the default configuration.
     */
    constructor (initialPhase: AppPhase, initialBadgeCount: int, store: LogStore, copy: Engine)
      ensures Valid()
      ensures fresh(state) && fresh(scheduler) && logStore == store
      ensures state.phase == initialPhase && state.badgeCount == initialBadgeCount
      ensures state.notificationLog == store.entries
      ensures scheduler.copy == copy && scheduler.config == DefaultConfig && scheduler.scheduledIdentifiers == []
      ensures !timerRunning && !hasRequestedNotificationAuth
      ensures pushedBadges == [CountUnread(store.entries), CountUnread(store.entries)]
    {
      var st := new AppState();
      st.phase := initialPhase;
      st.badgeCount := initialBadgeCount;
      state := st;
      logStore := store;
      scheduler := new NotificationScheduler(copy, DefaultConfig);
      timerRunning := false;
      liveTimers := 0;
      hasRequestedNotificationAuth := false;
      authRequests := 0;
      new;
      state.notificationLog := logStore.entries;
      pushedBadges := [logStore.UnreadCount()];
      pushedBadges := pushedBadges + [logStore.UnreadCount()];
    }

    // -------------------------------------------------------------------------
    // Session lifecycle

    /**
     * Starts a session from any phase (the phase is not checked): replaces
     * the timer by a fresh one, enters `disconnecting` with a session started
     * now at zero seconds, asks for permission the first time, and schedules
     * a batch badged from the current unread count.
     */
    method StartDisconnect(sessionId: Uuid, now: int, draws: Draws)
      requires Valid()
      requires Ready(Plan(scheduler.copy, scheduler.config, 0, logStore.UnreadCount(), draws), scheduler.config.maxScheduled)
      modifies this, state, scheduler
      ensures Valid()
      ensures state.phase == StartedPhase(sessionId, now)
      ensures timerRunning && liveTimers == 1
      ensures hasRequestedNotificationAuth && authRequests == 1
      ensures authRequests == old(authRequests) + (if old(hasRequestedNotificationAuth) then 0 else 1)
      ensures state.notificationLog == old(state.notificationLog) && state.badgeCount == old(state.badgeCount)
      ensures pushedBadges == old(pushedBadges)
      ensures scheduler.scheduledIdentifiers == draws.identifiers[..scheduler.config.maxScheduled]
      ensures scheduler.lastPlan == Plan(scheduler.copy, scheduler.config, 0, old(logStore.UnreadCount()), draws)
      ensures scheduler.issued == old(scheduler.issued) + Cancellation(old(scheduler.scheduledIdentifiers)) +
                scheduler.lastBatch
    {
      StopTimer();
      state.phase := Disconnecting(DisconnectSession(sessionId, now, 0));
      StartTimer();
      ghost var badges := pushedBadges;
      EnsureNotificationAuthThenSchedule(now, draws);
      assert pushedBadges == badges;
    }

    /**
     * Stops the timer and the pending batch in every phase; inside a session
     * it also moves to the aftermath of that session.
     */
    method StopDisconnect(now: int)
      requires Valid()
      modifies this, state, scheduler
      ensures Valid()
      ensures state.phase == StoppedPhase(old(state.phase), now)
      ensures !timerRunning && liveTimers == 0
      ensures scheduler.scheduledIdentifiers == []
      ensures scheduler.issued == old(scheduler.issued) + Cancellation(old(scheduler.scheduledIdentifiers))
      ensures scheduler.lastPlan == old(scheduler.lastPlan) && scheduler.lastBatch == old(scheduler.lastBatch)
      ensures state.notificationLog == old(state.notificationLog) && state.badgeCount == old(state.badgeCount)
      ensures hasRequestedNotificationAuth == old(hasRequestedNotificationAuth) && pushedBadges == old(pushedBadges)
    {
      StopTimer();
      scheduler.Stop();
      match state.phase {
        case Disconnecting(session) =>
          var endedAt := now;
          var totalSeconds := Max(0, endedAt - session.startedAt);
          state.phase := Aftermath(AftermathSummary(session.id, session.startedAt, endedAt, totalSeconds));
        case _ =>
      }
    }

    /** Returns home; the log, the unread count and the badge stay as they are. */
    method FinishAftermathAndReturnHome()
      requires Valid()
      modifies state
      ensures Valid()
      ensures state.phase == Idle
      ensures state.notificationLog == old(state.notificationLog) && state.badgeCount == old(state.badgeCount)
    {
      state.phase := Idle;
    }

    // -------------------------------------------------------------------------
    // Notifications logged in the app

    /** Records that a notification was requested, then mirrors the log and the badge. */
    method LogNotificationAttempt(identifier: string, title: string, body: string, copyId: Option<string>, now: int)
      requires Valid()
      modifies this`pushedBadges, state, logStore
      ensures Valid()
      ensures logStore.entries == Upserted(old(logStore.entries), identifier, Attempted, title, body, copyId, now)
      ensures pushedBadges == old(pushedBadges) + [logStore.UnreadCount()]
      ensures state.phase == old(state.phase) && state.badgeCount == old(state.badgeCount)
    {
      logStore.UpsertAttempt(identifier, title, body, copyId, now);
      state.notificationLog := logStore.entries;
      pushedBadges := pushedBadges + [logStore.UnreadCount()];
    }

    /** Records that a notification was delivered, then mirrors the log and the badge. */
    method LogNotificationDelivered(identifier: string, title: string, body: string, copyId: Option<string>, now: int)
      requires Valid()
      modifies this`pushedBadges, state, logStore
      ensures Valid()
      ensures logStore.entries == Upserted(old(logStore.entries), identifier, Delivered, title, body, copyId, now)
      ensures pushedBadges == old(pushedBadges) + [logStore.UnreadCount()]
      ensures state.phase == old(state.phase) && state.badgeCount == old(state.badgeCount)
    {
      logStore.UpsertDelivered(identifier, title, body, copyId, now);
      state.notificationLog := logStore.entries;
      pushedBadges := pushedBadges + [logStore.UnreadCount()];
    }

    /**
     * Marks a notification read, then mirrors the log; the badge is pushed
     * exactly when the identifier is known, even if the entry was already
     * read (the store's published log is written either way).
     */
    method MarkNotificationRead(id: string)
      requires Valid()
      modifies this`pushedBadges, state, logStore
      ensures Valid()
      ensures logStore.entries == MarkedRead(old(logStore.entries), id)
      ensures pushedBadges == old(pushedBadges) +
                (if FirstIndex(old(logStore.entries), id).Some? then [logStore.UnreadCount()] else [])
      ensures state.phase == old(state.phase) && state.badgeCount == old(state.badgeCount)
    {
      ghost var known := FirstIndex(logStore.entries, id).Some?;
      logStore.MarkRead(id);
      state.notificationLog := logStore.entries;
      if known {
        pushedBadges := pushedBadges + [logStore.UnreadCount()];
      }
    }

    /**
     * Replays the notification centre's delivered notifications, in the
     * order given, as delivered observations without a copy id; the badge
     * is pushed once per delivery.
     */
    method SyncDeliveredNotifications(delivered: seq<Delivery>, now: int)
      requires Valid()
      modifies this`pushedBadges, state, logStore
      ensures Valid()
      ensures logStore.entries == Replayed(old(logStore.entries), delivered, now)
      ensures pushedBadges == old(pushedBadges) + ReplayBadges(old(logStore.entries), delivered, now)
      ensures state.phase == old(state.phase) && state.badgeCount == old(state.badgeCount)
    {
      for k := 0 to |delivered|
        invariant Valid()
        invariant logStore.entries == Replayed(old(logStore.entries), delivered[..k], now)
        invariant pushedBadges == old(pushedBadges) + ReplayBadges(old(logStore.entries), delivered[..k], now)
        invariant state.phase == old(state.phase) && state.badgeCount == old(state.badgeCount)
      {
        var n := delivered[k];
        LogNotificationDelivered(n.identifier, n.title, n.body, None, now);
        assert delivered[..k + 1][..k] == delivered[..k];
      }
      assert delivered[..|delivered|] == delivered;
    }

    // -------------------------------------------------------------------------
    // Timer

    /** Installs a repeating timer, overwriting the handle without invalidating an earlier one. */
    method StartTimer()
      modifies this`timerRunning, this`liveTimers
      ensures timerRunning && liveTimers == old(liveTimers) + 1
    {
      timerRunning := true;
      liveTimers := liveTimers + 1;
    }

    /** Invalidates the installed timer, if any. */
    method StopTimer()
      requires liveTimers == (if timerRunning then 1 else 0)
      modifies this`timerRunning, this`liveTimers
      ensures !timerRunning && liveTimers == 0
    {
      if timerRunning {
        liveTimers := liveTimers - 1;
      }
      timerRunning := false;
    }

    /** One timer tick at `now`: refreshes the elapsed seconds of a running session. */
    method Tick(now: int)
      requires Valid()
      modifies state
      ensures Valid()
      ensures state.phase == TickedPhase(old(state.phase), now)
      ensures state.notificationLog == old(state.notificationLog) && state.badgeCount == old(state.badgeCount)
    {
      match state.phase {
        case Disconnecting(session) =>
          var s := session.(elapsedSeconds := Max(0, now - session.startedAt));
          state.phase := Disconnecting(s);
        case _ =>
      }
    }

    // -------------------------------------------------------------------------
    // Permission, then scheduling

    /**
     * Inside a session, asks for notification permission the first time
     * only, then starts the scheduler whatever the answer is; the answer
     * arrives before scheduling in this model.
     */
    method EnsureNotificationAuthThenSchedule(now: int, draws: Draws)
      requires scheduler.config.maxScheduled >= 0
      requires IsDisconnecting(state.phase) ==>
                 Ready(Plan(scheduler.copy, scheduler.config, Max(0, now - state.phase.session.startedAt),
                            logStore.UnreadCount(), draws), scheduler.config.maxScheduled)
      requires authRequests == (if hasRequestedNotificationAuth then 1 else 0)
      modifies this`hasRequestedNotificationAuth, this`authRequests, scheduler
      ensures authRequests == (if hasRequestedNotificationAuth then 1 else 0)
      ensures hasRequestedNotificationAuth == (old(hasRequestedNotificationAuth) || IsDisconnecting(state.phase))
      ensures authRequests == old(authRequests) + (if !old(hasRequestedNotificationAuth) && IsDisconnecting(state.phase) then 1 else 0)
      ensures !IsDisconnecting(state.phase) ==>
                scheduler.scheduledIdentifiers == old(scheduler.scheduledIdentifiers) &&
                scheduler.issued == old(scheduler.issued) && scheduler.lastPlan == old(scheduler.lastPlan) &&
                scheduler.lastBatch == old(scheduler.lastBatch)
      ensures IsDisconnecting(state.phase) ==>
                scheduler.scheduledIdentifiers == draws.identifiers[..scheduler.config.maxScheduled] &&
                scheduler.lastPlan == Plan(scheduler.copy, scheduler.config, Max(0, now - old(state.phase).session.startedAt),
                                           old(logStore.UnreadCount()), draws) &&
                scheduler.issued == old(scheduler.issued) + Cancellation(old(scheduler.scheduledIdentifiers)) +
                  scheduler.lastBatch
    {
      if !state.phase.Disconnecting? {
        return;
      }
      var session := state.phase.session;
      if !hasRequestedNotificationAuth {
        hasRequestedNotificationAuth := true;
        authRequests := authRequests + 1;
      }
      scheduler.Start(session.startedAt, logStore.UnreadCount(), now, draws);
    }
  }
}
