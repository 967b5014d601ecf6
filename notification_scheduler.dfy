/**
 * The batch scheduler: cancels the previous batch, then asks the
 * notification centre for `maxScheduled` future reminders at once, because
 * the suspended app cannot schedule them one by one later.
 *
 * The notification centre is a ghost record of the calls made to it. The
 * clock, the random draws and the fresh UUIDs are parameters.
 */
module Scheduler {
  import opened Wrappers
  import opened Copy

  datatype Config = Config(maxScheduled: int, minTriggerSeconds: int)

  /** Twenty reminders ahead; the notification centre accepts no delay under one second. */
  const DefaultConfig := Config(20, 1)

  /** A call made to the notification centre. */
  datatype CenterCall =
    | Add(identifier: string, triggerSeconds: int, title: string, body: string, badge: int)
    | RemovePending(identifiers: seq<string>)

  /** The oracle values one batch consumes: interval draws, message draws and fresh UUID strings. */
  datatype Draws = Draws(intervalPicks: seq<nat>, messagePicks: seq<nat>, identifiers: seq<string>)

  /** Everything one batch depends on. */
  datatype Plan = Plan(engine: Engine, config: Config, elapsedNow: int, startingBadge: int, draws: Draws)

  /** The draws suffice for `n` reminders, and the stages exist when any reminder is planned. */
  predicate Ready(plan: Plan, n: nat) {
    |plan.draws.intervalPicks| >= n && |plan.draws.messagePicks| >= n && |plan.draws.identifiers| >= n &&
    (n == 0 || |plan.engine.stagesSorted| > 0)
  }

  /** The cancellation `stop` issues: none when nothing is pending. */
  function Cancellation(pending: seq<string>): seq<CenterCall> {
    if pending == [] then [] else [RemovePending(pending)]
  }

  /**
   * The delay of the `k`-th reminder after the first `k` steps: each step
   * queries the interval at the elapsed time reached so far and adds at least
   * `minTriggerSeconds`.
   */
  function CumulativeDelay(plan: Plan, k: nat): int
    requires Ready(plan, k)
    decreases k, 0
  {
    if k == 0 then 0 else CumulativeDelay(plan, k - 1) + Gap(plan, k - 1)
  }

  /** The `k`-th step: the interval drawn at the elapsed time reached so far, at least `minTriggerSeconds`. */
  function Gap(plan: Plan, k: nat): (g: int)
    requires Ready(plan, k + 1)
    ensures g >= plan.config.minTriggerSeconds
    decreases k, 1
  {
    Max(plan.config.minTriggerSeconds,
        NextInterval(plan.engine, plan.elapsedNow + CumulativeDelay(plan, k), plan.draws.intervalPicks[k]))
  }

  /** When the `k`-th reminder (from 0) fires: its cumulative delay, never under `minTriggerSeconds`. */
  function FireTime(plan: Plan, k: nat): (t: int)
    requires Ready(plan, k + 1)
    ensures t >= plan.config.minTriggerSeconds
  {
    Max(plan.config.minTriggerSeconds, CumulativeDelay(plan, k + 1))
  }

  /** The `k`-th request when it is due `delay` seconds from now: its copy is made for the elapsed time it fires at. */
  function RequestAt(plan: Plan, k: nat, delay: int): CenterCall
    requires Ready(plan, k + 1)
  {
    var msg := MakeMessage(plan.engine, plan.elapsedNow + delay, plan.draws.messagePicks[k]);
    Add(plan.draws.identifiers[k], Max(plan.config.minTriggerSeconds, delay), msg.title, msg.body, plan.startingBadge + k + 1)
  }

  /** The `k`-th request of the batch: due after its cumulative delay. */
  function Request(plan: Plan, k: nat): CenterCall
    requires Ready(plan, k + 1)
  {
    RequestAt(plan, k, CumulativeDelay(plan, k + 1))
  }

  /** The requests of a batch of `n`, in the order they are issued. */
  function Batch(plan: Plan, n: nat): (b: seq<CenterCall>)
    requires Ready(plan, n)
  {
    if n == 0 then [] else Batch(plan, n - 1) + [Request(plan, n - 1)]
  }

  /** The `k`-th element of a batch is its `k`-th request. */
  lemma {:induction false} BatchAt(plan: Plan, n: nat, k: nat)
    requires Ready(plan, n) && k < n
    ensures |Batch(plan, n)| == n
    ensures Batch(plan, n)[k] == Request(plan, k)
    decreases n
  {
    BatchLength(plan, n);
    if k < n - 1 {
      BatchAt(plan, n - 1, k);
    }
  }

  /**
   * The `k`-th request carries the `k`-th fresh identifier, the badge
   * `startingBadge + k + 1` and fires at `FireTime(plan, k)`.
   */
  lemma BatchRequests(plan: Plan, n: nat, k: nat)
    requires Ready(plan, n) && k < n
    ensures |Batch(plan, n)| == n
    ensures Batch(plan, n)[k].Add?
    ensures Batch(plan, n)[k].identifier == plan.draws.identifiers[k]
    ensures Batch(plan, n)[k].badge == plan.startingBadge + k + 1
    ensures Batch(plan, n)[k].triggerSeconds == FireTime(plan, k)
  {
    BatchAt(plan, n, k);
  }

  lemma {:induction false} BatchLength(plan: Plan, n: nat)
    requires Ready(plan, n)
    ensures |Batch(plan, n)| == n
    decreases n
  {
    if n > 0 {
      BatchLength(plan, n - 1);
    }
  }

  /** Each step adds at least `minTriggerSeconds` and at least the interval drawn for it. */
  lemma DelayStep(plan: Plan, k: nat)
    requires Ready(plan, k + 1)
    ensures var prev := CumulativeDelay(plan, k);
            var drawn := NextInterval(plan.engine, plan.elapsedNow + prev, plan.draws.intervalPicks[k]);
            CumulativeDelay(plan, k + 1) - prev >= plan.config.minTriggerSeconds &&
            CumulativeDelay(plan, k + 1) - prev >= drawn
  {
  }

  /** With a positive minimum, a later step's cumulative delay exceeds an earlier one's by at least that minimum. */
  lemma {:induction false} DelayIncreases(plan: Plan, i: nat, j: nat)
    requires Ready(plan, j) && plan.config.minTriggerSeconds >= 1 && i < j
    ensures CumulativeDelay(plan, i) + plan.config.minTriggerSeconds <= CumulativeDelay(plan, j)
    decreases j
  {
    DelayStep(plan, j - 1);
    if i < j - 1 {
      DelayIncreases(plan, i, j - 1);
    }
  }

  /** With a positive minimum, every cumulative delay after the first step is at least that minimum. */
  lemma DelayAtLeastMin(plan: Plan, k: nat)
    requires Ready(plan, k) && plan.config.minTriggerSeconds >= 1 && k >= 1
    ensures CumulativeDelay(plan, k) >= plan.config.minTriggerSeconds
  {
    DelayIncreases(plan, 0, k);
  }

  /** With `minTriggerSeconds >= 1`, fire times strictly increase along the batch. */
  lemma FireTimesIncrease(plan: Plan, n: nat, i: nat, j: nat)
    requires Ready(plan, n) && plan.config.minTriggerSeconds >= 1 && i < j < n
    ensures FireTime(plan, i) < FireTime(plan, j)
  {
    DelayIncreases(plan, i + 1, j + 1);
    DelayAtLeastMin(plan, i + 1);
  }

  /** With `minTriggerSeconds >= 1`, each reminder fires after exactly its cumulative delay. */
  lemma FireTimeIsDelay(plan: Plan, k: nat)
    requires Ready(plan, k + 1) && plan.config.minTriggerSeconds >= 1
    ensures FireTime(plan, k) == CumulativeDelay(plan, k + 1)
  {
    DelayAtLeastMin(plan, k + 1);
  }

  /**
   * Each request's copy is made for the elapsed time at which it fires: the
   * session's elapsed time at `start` plus the cumulative delay.
   */
  lemma CopyMatchesFireTime(plan: Plan, n: nat, j: nat)
    requires Ready(plan, n) && j < n
    ensures |Batch(plan, n)| == n && Batch(plan, n)[j].Add?
    ensures var m := MakeMessage(plan.engine, plan.elapsedNow + CumulativeDelay(plan, j + 1), plan.draws.messagePicks[j]);
            Batch(plan, n)[j].title == m.title && Batch(plan, n)[j].body == m.body
  {
    BatchAt(plan, n, j);
  }

  /** The interval drawn for an elapsed time depends on that time only. */
  lemma SameInterval(engine: Engine, x: int, y: int, pick: nat)
    requires |engine.stagesSorted| > 0 && x == y
    ensures NextInterval(engine, x, pick) == NextInterval(engine, y, pick)
  {
  }

  /** One step of the loop in `start`: the delay it adds is the next cumulative delay. */
  lemma NextDelay(plan: Plan, i: nat, prev: int, at: int)
    requires Ready(plan, i + 1) && prev == CumulativeDelay(plan, i)
    requires at == plan.elapsedNow + CumulativeDelay(plan, i)
    ensures prev + Max(plan.config.minTriggerSeconds, NextInterval(plan.engine, at, plan.draws.intervalPicks[i]))
            == CumulativeDelay(plan, i + 1)
  {
    SameInterval(plan.engine, at, plan.elapsedNow + CumulativeDelay(plan, i), plan.draws.intervalPicks[i]);
  }

  /** The request due after the next cumulative delay is the next request of the batch. */
  lemma RequestIsDue(plan: Plan, i: nat, delay: int)
    requires Ready(plan, i + 1) && delay == CumulativeDelay(plan, i + 1)
    ensures Request(plan, i) == RequestAt(plan, i, delay)
  {
  }

  /** The batch of `i + 1` is the batch of `i` followed by the `i`-th request. */
  lemma BatchGrows(plan: Plan, i: nat, start: seq<CenterCall>, issued: seq<CenterCall>)
    requires Ready(plan, i + 1) && issued == start + Batch(plan, i)
    ensures issued + [Request(plan, i)] == start + Batch(plan, i + 1)
  {
  }

  lemma PrefixGrows(s: seq<string>, i: nat)
    requires i < |s|
    ensures s[..i + 1] == s[..i] + [s[i]]
  {
  }

  /** A sequence whose every element is the request of its position is the batch. */
  lemma {:induction false} IsBatch(plan: Plan, n: nat, b: seq<CenterCall>)
    requires Ready(plan, n) && |b| == n
    requires forall k :: 0 <= k < n ==> b[k] == Request(plan, k)
    ensures b == Batch(plan, n)
  {
    BatchLength(plan, n);
    forall k | 0 <= k < n
      ensures b[k] == Batch(plan, n)[k]
    {
      BatchAt(plan, n, k);
    }
  }

  class NotificationScheduler {
    const copy: Engine
    const config: Config
    /** The identifiers of the pending batch. */
    var scheduledIdentifiers: seq<string>
    /** Every call made to the notification centre, oldest first. */
    ghost var issued: seq<CenterCall>
    /** What the latest batch was planned from, and the requests it issued. */
    ghost var lastPlan: Plan
    ghost var lastBatch: seq<CenterCall>

    constructor (copy: Engine, config: Config)
      ensures this.copy == copy && this.config == config
      ensures scheduledIdentifiers == [] && issued == []
    {
      lastPlan := Plan(copy, config, 0, 0, Draws([], [], []));
      lastBatch := [];
      this.copy := copy;
      this.config := config;
      scheduledIdentifiers := [];
      issued := [];
    }

    /**
     * Cancels the pending batch, then schedules a fresh one of
     * `maxScheduled` reminders for the session started at `sessionStartedAt`.
     * The range `0..<maxScheduled` traps for a negative count, hence the
     * first precondition.
     */
    method Start(sessionStartedAt: int, startingBadge: int, now: int, draws: Draws)
      requires config.maxScheduled >= 0
      requires Ready(Plan(copy, config, Max(0, now - sessionStartedAt), startingBadge, draws), config.maxScheduled)
      modifies this
      ensures scheduledIdentifiers == draws.identifiers[..config.maxScheduled]
      ensures lastPlan == Plan(copy, config, Max(0, now - sessionStartedAt), startingBadge, draws)
      ensures lastBatch == Batch(lastPlan, config.maxScheduled)
      ensures issued == old(issued) + Cancellation(old(scheduledIdentifiers)) + lastBatch
    {
      Stop();
      var elapsedNow := Max(0, now - sessionStartedAt);
      var plan := Plan(copy, config, elapsedNow, startingBadge, draws);
      lastPlan := plan;
      ghost var afterStop := issued;
      ScheduleBatch(plan);
      lastBatch := issued[|afterStop|..];
    }

    /** The loop of `start`: with nothing pending, issues the batch of `plan` request by request. */
    method ScheduleBatch(plan: Plan)
      requires plan.engine == copy && plan.config == config && config.maxScheduled >= 0
      requires Ready(plan, config.maxScheduled)
      requires scheduledIdentifiers == []
      modifies this`scheduledIdentifiers, this`issued
      ensures scheduledIdentifiers == plan.draws.identifiers[..config.maxScheduled]
      ensures issued == old(issued) + Batch(plan, config.maxScheduled)
    {
      var cumulativeDelay := 0;
      for i := 0 to config.maxScheduled
        invariant scheduledIdentifiers == plan.draws.identifiers[..i]
        invariant cumulativeDelay == CumulativeDelay(plan, i)
        invariant issued == old(issued) + Batch(plan, i)
      {
        ghost var before := issued;
        cumulativeDelay := ScheduleNext(plan, i, cumulativeDelay);
        RequestIsDue(plan, i, cumulativeDelay);
        BatchGrows(plan, i, old(issued), before);
        PrefixGrows(plan.draws.identifiers, i);
      }
    }

    /**
     * One round of the loop of `start`: draws the next delay at the elapsed
     * time reached so far, builds the copy for the time the reminder fires,
     * and asks for the `i`-th request of the batch.
     */
    method ScheduleNext(plan: Plan, i: nat, cumulativeDelay: int) returns (next: int)
      requires plan.engine == copy && plan.config == config
      requires Ready(plan, i + 1) && cumulativeDelay == CumulativeDelay(plan, i)
      requires |scheduledIdentifiers| == i
      modifies this`scheduledIdentifiers, this`issued
      ensures next == CumulativeDelay(plan, i + 1)
      ensures scheduledIdentifiers == old(scheduledIdentifiers) + [plan.draws.identifiers[i]]
      ensures issued == old(issued) + [RequestAt(plan, i, next)]
    {
      var projectedElapsed := plan.elapsedNow + cumulativeDelay;
      NextDelay(plan, i, cumulativeDelay, projectedElapsed);
      var nextDelay := NextInterval(plan.engine, projectedElapsed, plan.draws.intervalPicks[i]);
      next := cumulativeDelay + Max(plan.config.minTriggerSeconds, nextDelay);
      IssueRequest(plan, i, next);
      scheduledIdentifiers := scheduledIdentifiers + [plan.draws.identifiers[i]];
    }

    /** Builds the copy of the `i`-th reminder for the time it fires and asks for it `delay` seconds from now. */
    method IssueRequest(plan: Plan, i: nat, delay: int)
      requires plan.engine == copy && plan.config == config && Ready(plan, i + 1)
      requires |scheduledIdentifiers| == i
      modifies this`issued
      ensures issued == old(issued) + [RequestAt(plan, i, delay)]
    {
      var msg := MakeMessage(plan.engine, plan.elapsedNow + delay, plan.draws.messagePicks[i]);
      var identifier := plan.draws.identifiers[i];
      ScheduleLocalNotification(identifier, delay, msg.title, msg.body,
                                plan.startingBadge + |scheduledIdentifiers| + 1);
    }

    /** Cancels the pending batch in one call, if there is one, and forgets it. */
    method Stop()
      modifies this`scheduledIdentifiers, this`issued
      ensures scheduledIdentifiers == []
      ensures issued == old(issued) + Cancellation(old(scheduledIdentifiers))
    {
      if scheduledIdentifiers == [] {
        return;
      }
      issued := issued + [RemovePending(scheduledIdentifiers)];
      scheduledIdentifiers := [];
    }

    /** Stopping twice cancels once: the second call finds nothing pending. */
    method StopTwice()
      modifies this`scheduledIdentifiers, this`issued
      ensures scheduledIdentifiers == []
      ensures issued == old(issued) + Cancellation(old(scheduledIdentifiers))
    {
      Stop();
      Stop();
    }

    /** Asks for one reminder, never sooner than `minTriggerSeconds`. */
    method ScheduleLocalNotification(identifier: string, inSeconds: int, title: string, body: string, badge: int)
      modifies this`issued
      ensures issued == old(issued) + [Add(identifier, Max(config.minTriggerSeconds, inSeconds), title, body, badge)]
    {
      var triggerSeconds := Max(config.minTriggerSeconds, inSeconds);
      issued := issued + [Add(identifier, triggerSeconds, title, body, badge)];
    }
  }
}
